/** The deletion loops of the retention jobs: rounds of at most 5000 rows until a round comes up short. */
module BatchedDelete {
  import opened Types

  const BATCH := 5000

  function BatchSize(n: nat): nat {
    if n < BATCH then n else BATCH
  }

  lemma {:induction false} SubsetOfSize(s: set<Uuid>, n: nat)
    requires n <= |s|
    ensures exists b :: b <= s && |b| == n
  {
    if n == |s| {
      assert s <= s;
    } else {
      var x :| x in s;
      SubsetOfSize(s - {x}, n);
      var b :| b <= s - {x} && |b| == n;
      assert b <= s;
    }
  }

  /** Which matching rows a `LIMIT 5000` without an order picks is up to the database. */
  method PickBatch(matching: set<Uuid>) returns (batch: set<Uuid>)
    ensures batch <= matching && |batch| == BatchSize(|matching|)
  {
    SubsetOfSize(matching, BatchSize(|matching|));
    batch :| batch <= matching && |batch| == BatchSize(|matching|);
  }

  /** The rows that are stale in round k. */
  function StaleAt<V>(rows: map<Uuid, V>, stale: (nat, V) -> bool, k: nat): set<Uuid> {
    set id | id in rows && stale(k, rows[id])
  }

  function Drop<V>(rows: map<Uuid, V>, gone: set<Uuid>): map<Uuid, V> {
    map id | id in rows && id !in gone :: rows[id]
  }

  /**
    Round k deletes rows that are stale then; rows only grow stale. For every choice of batches the loop ends, deletes exactly
    the rows that are stale in the last round, leaves the others untouched, and returns the number of rows deleted.
   */
  method DeleteInBatches<V>(table: map<Uuid, V>, stale: (nat, V) -> bool)
    returns (rows: map<Uuid, V>, total: nat, last: nat)
    requires forall k: nat, v: V :: stale(k, v) ==> stale(k + 1, v)
    ensures rows == Drop(table, StaleAt(table, stale, last))
    ensures total == |StaleAt(table, stale, last)|
  {
    rows, total, last := table, 0, 0;
    ghost var gone: set<Uuid> := {};
    while true
      invariant rows == Drop(table, gone) && total == |gone|
      invariant gone <= StaleAt(table, stale, last)
      decreases |table.Keys - gone|
    {
      var matching := StaleAt(rows, stale, last);
      var batch := PickBatch(matching);
      StaleAfterDrop(table, gone, stale, last);
      DropTwice(table, gone, batch);
      Counts(table.Keys, gone, batch);
      rows := Drop(rows, batch);
      gone := gone + batch;
      total := total + |batch|;
      if |batch| < BATCH {
        Exhausted(matching, batch);
        break;
      }
      last := last + 1;
    }
  }

  lemma DropTwice<V>(table: map<Uuid, V>, gone: set<Uuid>, batch: set<Uuid>)
    ensures Drop(Drop(table, gone), batch) == Drop(table, gone + batch)
  {
  }

  lemma StaleAfterDrop<V>(table: map<Uuid, V>, gone: set<Uuid>, stale: (nat, V) -> bool, k: nat)
    ensures StaleAt(Drop(table, gone), stale, k) == StaleAt(table, stale, k) - gone
  {
  }

  lemma Counts(all: set<Uuid>, gone: set<Uuid>, batch: set<Uuid>)
    requires batch <= all - gone
    ensures |gone + batch| == |gone| + |batch|
    ensures |all - gone| == |all - (gone + batch)| + |batch|
  {
    assert all - gone == (all - (gone + batch)) + batch;
  }

  lemma Exhausted(matching: set<Uuid>, batch: set<Uuid>)
    requires batch <= matching && |batch| == BatchSize(|matching|) && |batch| < BATCH
    ensures batch == matching
  {
    if batch != matching {
      var x :| x in matching && x !in batch;
      assert |matching| == |matching - {x}| + 1;
      SmallerSet(batch, matching - {x});
    }
  }

  lemma {:induction false} SmallerSet(a: set<Uuid>, b: set<Uuid>)
    requires a <= b
    ensures |a| <= |b|
  {
    if a != {} {
      var x :| x in a;
      SmallerSet(a - {x}, b - {x});
    }
  }
}
