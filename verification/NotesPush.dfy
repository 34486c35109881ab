/** A batch of mutations in one transaction: folders first, then notes, results in submission order. */
module NotesPush {
  import opened Wrappers
  import opened Types
  import opened NotesModel

  const MAX_MUTATIONS_PER_PUSH := 200

  type Queue = seq<(nat, SyncMutation)>
  type Results = seq<(nat, MutationResult)>

  datatype Progress = Progress(db: Db, results: Results, writes: seq<NoteWrite>)

  /** A note's folder is dropped unless the caller owns it. */
  function Unfile(m: Mutation<NoteBody>, owned: set<Uuid>): Mutation<NoteBody> {
    if m.body.folderId.Some? && m.body.folderId.value !in owned then m.(body := m.body.(folderId := None)) else m
  }

  function Logged(id: Uuid, w: Write): seq<NoteWrite> {
    if w == Untouched then [] else [NoteWrite(id, w)]
  }

  function ApplyOne(base: Db, owned: set<Uuid>, c: Caller, p: Progress, item: (nat, SyncMutation)): Result<Progress, NotesError> {
    match item.1
    case FolderMutation(m) =>
      var out :- ApplyToCell(At(base.folders, m.id), At(p.db.folders, m.id), c, m,
                             RejectFolder(m), StorableFolder(m.body), FolderNotFound);
      Ok(Progress(p.db.(folders := Put(p.db.folders, m.id, out.cell)),
                  p.results + [(item.0, FolderResult(out.result))], p.writes))
    case NoteMutation(m0) =>
      var m := Unfile(m0, owned);
      var out :- ApplyToCell(At(base.notes, m.id), At(p.db.notes, m.id), c, m,
                             RejectNote(m), StorableNote(p.db, m.body), NoteNotFound);
      Ok(Progress(p.db.(notes := Put(p.db.notes, m.id, out.cell)),
                  p.results + [(item.0, NoteResult(out.result))], p.writes + Logged(m.id, out.write)))
  }

  /** The queue applied in order to the database it started from; the first error ends it. */
  function Run(base: Db, owned: set<Uuid>, c: Caller, q: Queue): (r: Result<Progress, NotesError>)
    ensures r.Ok? ==> |r.value.results| == |q| && forall i | 0 <= i < |q| :: r.value.results[i].0 == q[i].0
  {
    if q == [] then Ok(Progress(base, [], []))
    else
      var p :- Run(base, owned, c, q[..|q| - 1]);
      ApplyOne(base, owned, c, p, q[|q| - 1])
  }

  lemma {:induction false} RunStopsAtError(base: Db, owned: set<Uuid>, c: Caller, q: Queue, n: nat)
    requires n <= |q| && Run(base, owned, c, q[..n]).Err?
    ensures Run(base, owned, c, q) == Run(base, owned, c, q[..n])
  {
    if n == |q| {
      assert q[..n] == q;
    } else {
      var front := q[..|q| - 1];
      assert front[..n] == q[..n];
      RunStopsAtError(base, owned, c, front, n);
    }
  }

  function Tagged(ms: seq<SyncMutation>): (q: Queue)
    ensures |q| == |ms| && forall i | 0 <= i < |q| :: q[i] == (i, ms[i])
  {
    if ms == [] then [] else Tagged(ms[..|ms| - 1]) + [(|ms| - 1, ms[|ms| - 1])]
  }

  /** The folder mutations of a queue, or its note mutations, in their order. */
  function Only(q: Queue, folders: bool): (f: Queue)
    ensures |f| <= |q| && forall x | x in f :: x.1.FolderMutation? == folders
    ensures forall x :: x in f <==> x in q && x.1.FolderMutation? == folders
  {
    if q == [] then []
    else
      assert q == q[..|q| - 1] + [q[|q| - 1]];
      Only(q[..|q| - 1], folders) + (if q[|q| - 1].1.FolderMutation? == folders then [q[|q| - 1]] else [])
  }

  /** Every folder id a note of the batch names. */
  function Referenced(ms: seq<SyncMutation>): set<Uuid> {
    set m | m in ms && m.NoteMutation? && m.note.body.folderId.Some? :: m.note.body.folderId.value
  }

  /** `SELECT id FROM folders WHERE creator_id = $1 AND id = ANY($2)`, on the committed rows. */
  function OwnedFolderIds(db: Db, user: Uuid, candidates: set<Uuid>): set<Uuid> {
    set id | id in candidates && Owned(At(db.folders, id), user)
  }

  predicate ByIndex(s: Results) {
    forall i, j | 0 <= i < j < |s| :: s[i].0 < s[j].0
  }

  predicate DistinctIndices(s: Results) {
    forall i, j | 0 <= i < j < |s| :: s[i].0 != s[j].0
  }

  function Insert(x: (nat, MutationResult), s: Results): (r: Results)
    requires ByIndex(s) && forall y | y in s :: y.0 != x.0
    ensures ByIndex(r) && |r| == |s| + 1
    ensures forall y :: y in r <==> y == x || y in s
  {
    if s == [] then [x]
    else if x.0 < s[0].0 then [x] + s
    else
      assert s == [s[0]] + s[1..];
      var r := Insert(x, s[1..]);
      assert forall i | 0 <= i < |r| :: r[i] in r;
      [s[0]] + r
  }

  /** Sorting by submission index. */
  function SortByIndex(s: Results): (r: Results)
    requires DistinctIndices(s)
    ensures ByIndex(r) && |r| == |s|
    ensures forall y :: y in r <==> y in s
  {
    if s == [] then []
    else
      assert s == [s[0]] + s[1..];
      Insert(s[0], SortByIndex(s[1..]))
  }

  lemma {:induction false} SortIsUnique(a: Results, b: Results)
    requires ByIndex(a) && ByIndex(b)
    requires forall y :: y in a <==> y in b
    ensures a == b
    decreases |a|
  {
    assert a != [] ==> a[0] in b;
    assert b != [] ==> b[0] in a;
    if a != [] && b != [] {
      assert a[0] == b[0];
      forall y
        ensures y in a[1..] <==> y in b[1..]
      {
        assert y in a[1..] ==> y in a && y != a[0];
        assert y in b[1..] ==> y in b && y != b[0];
        assert a == [a[0]] + a[1..] && b == [b[0]] + b[1..];
      }
      SortIsUnique(a[1..], b[1..]);
    }
  }

  function Untagged(s: Results): seq<MutationResult> {
    seq(|s|, i requires 0 <= i < |s| => s[i].1)
  }

  /** What a push does to the committed database and answers. */
  datatype Pushed = Pushed(db: Db, results: seq<MutationResult>, writes: seq<NoteWrite>)

  function FoldersFirst(ms: seq<SyncMutation>): Queue {
    Only(Tagged(ms), true) + Only(Tagged(ms), false)
  }

  lemma {:induction false} OnlyKeepsOrder(q: Queue, folders: bool)
    requires forall i, j | 0 <= i < j < |q| :: q[i].0 < q[j].0
    ensures forall i, j | 0 <= i < j < |Only(q, folders)| :: Only(q, folders)[i].0 < Only(q, folders)[j].0
  {
    if q != [] {
      var front := q[..|q| - 1];
      OnlyKeepsOrder(front, folders);
      var f := Only(front, folders);
      forall i | 0 <= i < |f|
        ensures f[i].0 < q[|q| - 1].0
      {
        assert f[i] in f;
        var j :| 0 <= j < |front| && front[j] == f[i];
      }
    }
  }

  lemma ApartAndAscending(f: Queue, n: Queue)
    requires forall i, j | 0 <= i < j < |f| :: f[i].0 < f[j].0
    requires forall i, j | 0 <= i < j < |n| :: n[i].0 < n[j].0
    requires forall x, y | x in f && y in n :: x.0 != y.0
    ensures forall i, j | 0 <= i < j < |f + n| :: (f + n)[i].0 != (f + n)[j].0
  {
  }

  lemma FoldersFirstIndices(ms: seq<SyncMutation>)
    ensures var q := FoldersFirst(ms); forall i, j | 0 <= i < j < |q| :: q[i].0 != q[j].0
  {
    var t := Tagged(ms);
    OnlyKeepsOrder(t, true);
    OnlyKeepsOrder(t, false);
    forall x, y | x in Only(t, true) && y in Only(t, false)
      ensures x.0 != y.0
    {
      assert x in t && y in t;
    }
    ApartAndAscending(Only(t, true), Only(t, false));
  }

  function Push(db: Db, c: Caller, ms: seq<SyncMutation>): Result<Pushed, NotesError> {
    if ms == [] then Ok(Pushed(db, [], []))
    else if |ms| > MAX_MUTATIONS_PER_PUSH then Err(BadRequest("Cannot push more than 200 mutations per request"))
    else
      var owned := OwnedFolderIds(db, c.user, Referenced(ms));
      FoldersFirstIndices(ms);
      var p :- Run(db, owned, c, FoldersFirst(ms));
      Ok(Pushed(p.db, Untagged(SortByIndex(p.results)), p.writes))
  }

  // ---- reordering is invisible ----

  /** The same batch processed in the order it was submitted. */
  function InOrder(db: Db, c: Caller, ms: seq<SyncMutation>): Result<Progress, NotesError> {
    Run(db, OwnedFolderIds(db, c.user, Referenced(ms)), c, Tagged(ms))
  }

  predicate OwnedExist(base: Db, owned: set<Uuid>) {
    forall id | id in owned :: id in base.folders
  }

  /** Folders are never removed by a push. */
  lemma {:induction false} RunKeepsFolders(base: Db, owned: set<Uuid>, c: Caller, q: Queue)
    ensures var r := Run(base, owned, c, q); r.Ok? ==> base.folders.Keys <= r.value.db.folders.Keys
  {
    if q != [] {
      RunKeepsFolders(base, owned, c, q[..|q| - 1]);
    }
  }

  /** A note that passed the ownership filter names no folder or a committed one, whatever the batch did to folders before it. */
  lemma UnfiledIsStorable(base: Db, owned: set<Uuid>, db: Db, m: Mutation<NoteBody>)
    requires OwnedExist(base, owned) && base.folders.Keys <= db.folders.Keys
    ensures StorableNote(db, Unfile(m, owned).body) == StorableNote(base, Unfile(m, owned).body)
    ensures RejectNote(Unfile(m, owned)).None? ==> StorableNote(db, Unfile(m, owned).body)
  {
  }

  /** `all` is what running `f` on the folders and `n` on the notes amounts to. */
  ghost predicate Joins(all: Result<Progress, NotesError>, f: Result<Progress, NotesError>, n: Result<Progress, NotesError>) {
    && (all.Ok? <==> f.Ok? && n.Ok?)
    && (all.Ok? ==>
          && all.value.db == Db(n.value.db.notes, f.value.db.folders)
          && all.value.writes == n.value.writes
          && (forall y :: y in all.value.results <==> y in f.value.results || y in n.value.results))
  }

  function Next(base: Db, owned: set<Uuid>, c: Caller, r: Result<Progress, NotesError>, item: (nat, SyncMutation))
    : Result<Progress, NotesError>
  {
    if r.Ok? then ApplyOne(base, owned, c, r.value, item) else r
  }

  lemma RunLast(base: Db, owned: set<Uuid>, c: Caller, q: Queue, last: (nat, SyncMutation))
    ensures Run(base, owned, c, q + [last]) == Next(base, owned, c, Run(base, owned, c, q), last)
  {
  }

  lemma OnlyLast(q: Queue, last: (nat, SyncMutation), folders: bool)
    ensures Only(q + [last], folders) == Only(q, folders) + (if last.1.FolderMutation? == folders then [last] else [])
  {
  }

  lemma FolderJoins(base: Db, owned: set<Uuid>, c: Caller, all: Result<Progress, NotesError>,
                    f: Result<Progress, NotesError>, n: Result<Progress, NotesError>, item: (nat, SyncMutation))
    requires Joins(all, f, n) && item.1.FolderMutation?
    ensures Joins(Next(base, owned, c, all, item), Next(base, owned, c, f, item), n)
  {
  }

  lemma NoteJoins(base: Db, owned: set<Uuid>, c: Caller, all: Result<Progress, NotesError>,
                  f: Result<Progress, NotesError>, n: Result<Progress, NotesError>, item: (nat, SyncMutation))
    requires Joins(all, f, n) && item.1.NoteMutation? && OwnedExist(base, owned)
    requires all.Ok? ==> base.folders.Keys <= all.value.db.folders.Keys
    requires n.Ok? ==> base.folders.Keys <= n.value.db.folders.Keys
    ensures Joins(Next(base, owned, c, all, item), f, Next(base, owned, c, n, item))
  {
  }

  /** Folder steps and note steps do not see each other, so a queue does what its two halves do apart. */
  lemma {:induction false} QueueSplits(base: Db, owned: set<Uuid>, c: Caller, q: Queue)
    requires OwnedExist(base, owned)
    ensures Joins(Run(base, owned, c, q), Run(base, owned, c, Only(q, true)), Run(base, owned, c, Only(q, false)))
  {
    if q != [] {
      var front, last := q[..|q| - 1], q[|q| - 1];
      var folders := last.1.FolderMutation?;
      assert q == front + [last];
      QueueSplits(base, owned, c, front);
      RunLast(base, owned, c, front, last);
      RunLast(base, owned, c, Only(front, folders), last);
      OnlyLast(front, last, true);
      OnlyLast(front, last, false);
      var all, f, n := Run(base, owned, c, front), Run(base, owned, c, Only(front, true)), Run(base, owned, c, Only(front, false));
      RunKeepsFolders(base, owned, c, front);
      RunKeepsFolders(base, owned, c, Only(front, false));
      if folders {
        FolderJoins(base, owned, c, all, f, n, last);
        assert Only(front, false) + [] == Only(front, false);
      } else {
        NoteJoins(base, owned, c, all, f, n, last);
        assert Only(front, true) + [] == Only(front, true);
      }
    }
  }

  lemma Regroup<T>(a: seq<T>, b: seq<T>, c: seq<T>)
    ensures (a + b) + c == a + (b + c)
  {
  }

  lemma {:induction false} OnlyOfConcat(a: Queue, b: Queue, folders: bool)
    ensures Only(a + b, folders) == Only(a, folders) + Only(b, folders)
    decreases |b|
  {
    if b == [] {
      assert a + b == a && Only(b, folders) == [];
    } else {
      var front, last := b[..|b| - 1], b[|b| - 1];
      OnlyOfConcat(a, front, folders);
      Regroup(a, front, [last]);
      assert b == front + [last];
      OnlyLast(a + front, last, folders);
      OnlyLast(front, last, folders);
      Regroup(Only(a, folders), Only(front, folders), if last.1.FolderMutation? == folders then [last] else []);
    }
  }

  lemma {:induction false} OnlyOfOneKind(q: Queue, kind: bool, folders: bool)
    requires forall x | x in q :: x.1.FolderMutation? == kind
    ensures Only(q, folders) == if kind == folders then q else []
  {
    if q != [] {
      var front, last := q[..|q| - 1], q[|q| - 1];
      assert q == front + [last];
      OnlyOfOneKind(front, kind, folders);
      OnlyLast(front, last, folders);
    }
  }

  /** Folders-first processing has the same halves as submission order. */
  lemma FoldersFirstHalves(ms: seq<SyncMutation>, folders: bool)
    ensures Only(FoldersFirst(ms), folders) == Only(Tagged(ms), folders)
  {
    var f, n := Only(Tagged(ms), true), Only(Tagged(ms), false);
    OnlyOfConcat(f, n, folders);
    OnlyOfOneKind(f, true, folders);
    OnlyOfOneKind(n, false, folders);
    assert f + [] == f && [] + n == n;
  }

  lemma OwnedFoldersExist(db: Db, user: Uuid, candidates: set<Uuid>)
    ensures OwnedExist(db, OwnedFolderIds(db, user, candidates))
  {
  }

  /**
    Reordering is invisible: a push of at most 200 mutations succeeds exactly when submission order would, with the
    same database and, position by position, the same results.
   */
  lemma ReorderingIsInvisible(db: Db, c: Caller, ms: seq<SyncMutation>)
    requires |ms| <= MAX_MUTATIONS_PER_PUSH
    ensures Push(db, c, ms).Ok? <==> InOrder(db, c, ms).Ok?
    ensures Push(db, c, ms).Ok? ==>
              var pushed, inOrder := Push(db, c, ms).value, InOrder(db, c, ms).value;
              && pushed.db == inOrder.db
              && pushed.writes == inOrder.writes
              && |pushed.results| == |ms|
              && forall i | 0 <= i < |ms| :: inOrder.results[i] == (i, pushed.results[i])
  {
    if ms == [] {
      assert Tagged(ms) == [];
    } else {
      var owned := OwnedFolderIds(db, c.user, Referenced(ms));
      OwnedFoldersExist(db, c.user, Referenced(ms));
      QueueSplits(db, owned, c, Tagged(ms));
      QueueSplits(db, owned, c, FoldersFirst(ms));
      FoldersFirstHalves(ms, true);
      FoldersFirstHalves(ms, false);
      FoldersFirstIndices(ms);
      if InOrder(db, c, ms).Ok? {
        SortedResults(ms, Run(db, owned, c, FoldersFirst(ms)).value.results, InOrder(db, c, ms).value.results);
      }
    }
  }

  lemma SortedResults(ms: seq<SyncMutation>, unsorted: Results, inOrder: Results)
    requires DistinctIndices(unsorted) && forall y :: y in unsorted <==> y in inOrder
    requires |inOrder| == |ms| && forall i | 0 <= i < |ms| :: inOrder[i].0 == i
    ensures var r := Untagged(SortByIndex(unsorted));
            |r| == |ms| && forall i | 0 <= i < |ms| :: inOrder[i] == (i, r[i])
  {
    SortIsUnique(SortByIndex(unsorted), inOrder);
  }

  function ResultId(r: MutationResult): Uuid {
    match r
    case NoteResult(n) => n.id
    case FolderResult(f) => f.id
  }

  lemma {:induction false} ResultsMatchQueue(base: Db, owned: set<Uuid>, c: Caller, q: Queue, i: nat)
    requires Run(base, owned, c, q).Ok? && i < |q|
    ensures var r := Run(base, owned, c, q).value.results[i].1;
            ResultId(r) == MutationId(q[i].1) && (r.FolderResult? <==> q[i].1.FolderMutation?)
  {
    var front := q[..|q| - 1];
    assert q == front + [q[|q| - 1]];
    if i < |q| - 1 {
      ResultsMatchQueue(base, owned, c, front, i);
    }
    StepAnswers(base, owned, c, Run(base, owned, c, front).value, q[|q| - 1]);
  }

  lemma StepAnswers(base: Db, owned: set<Uuid>, c: Caller, p: Progress, item: (nat, SyncMutation))
    requires ApplyOne(base, owned, c, p, item).Ok?
    ensures var out := ApplyOne(base, owned, c, p, item).value.results;
            && |out| == |p.results| + 1 && out[..|p.results|] == p.results
            && ResultId(out[|p.results|].1) == MutationId(item.1)
            && (out[|p.results|].1.FolderResult? <==> item.1.FolderMutation?)
  {
  }

  /** The client can zip results against its queue: entry i answers mutation i. */
  lemma ResultsArePositional(db: Db, c: Caller, ms: seq<SyncMutation>, i: nat)
    requires Push(db, c, ms).Ok? && i < |ms|
    ensures var r := Push(db, c, ms).value.results;
            |r| == |ms| && ResultId(r[i]) == MutationId(ms[i]) && (r[i].FolderResult? <==> ms[i].FolderMutation?)
  {
    ReorderingIsInvisible(db, c, ms);
    ResultsMatchQueue(db, OwnedFolderIds(db, c.user, Referenced(ms)), c, Tagged(ms), i);
  }

  // ---- what a push files notes under ----

  ghost predicate FiledUnderOwned(base: Db, owned: set<Uuid>, db: Db) {
    forall id | id in db.notes ::
      At(base.notes, id) == At(db.notes, id)
      || db.notes[id].body.folderId.None? || db.notes[id].body.folderId.value in owned
  }

  lemma {:induction false} RunFilesUnderOwned(base: Db, owned: set<Uuid>, c: Caller, q: Queue)
    requires Run(base, owned, c, q).Ok?
    ensures FiledUnderOwned(base, owned, Run(base, owned, c, q).value.db)
  {
    hide ApplyOne, FiledUnderOwned;
    if q == [] {
      StartsFiledUnderOwned(base, owned);
    } else {
      RunFilesUnderOwned(base, owned, c, q[..|q| - 1]);
      StepFilesUnderOwned(base, owned, c, Run(base, owned, c, q[..|q| - 1]).value, q[|q| - 1]);
    }
  }

  lemma StartsFiledUnderOwned(base: Db, owned: set<Uuid>)
    ensures FiledUnderOwned(base, owned, base)
  {
  }

  /** The body a mutation stores is its own body. */
  lemma CellBody<B>(committed: Cell<B>, tx: Cell<B>, c: Caller, m: Mutation<B>, reject: Option<string>,
                    storable: bool, notFound: NotesError)
    ensures var out := ApplyToCell(committed, tx, c, m, reject, storable, notFound);
            out.Ok? ==> out.value.cell == tx || (out.value.cell.Some? && out.value.cell.value.body == m.body)
  {
  }

  lemma StepFilesUnderOwned(base: Db, owned: set<Uuid>, c: Caller, p: Progress, item: (nat, SyncMutation))
    requires FiledUnderOwned(base, owned, p.db) && ApplyOne(base, owned, c, p, item).Ok?
    ensures FiledUnderOwned(base, owned, ApplyOne(base, owned, c, p, item).value.db)
  {
    hide ApplyToCell;
    if item.1.NoteMutation? {
      var m := Unfile(item.1.note, owned);
      CellBody(At(base.notes, m.id), At(p.db.notes, m.id), c, m, RejectNote(m), StorableNote(p.db, m.body), NoteNotFound);
    }
  }

  /** A folder id that a push writes is a committed folder of the caller, whatever the client sent or the batch itself creates. */
  lemma PushFilesUnderOwned(db: Db, c: Caller, ms: seq<SyncMutation>, id: Uuid)
    requires Push(db, c, ms).Ok?
    requires var db' := Push(db, c, ms).value.db;
             id in db'.notes && At(db.notes, id) != At(db'.notes, id) && db'.notes[id].body.folderId.Some?
    ensures Owned(At(db.folders, Push(db, c, ms).value.db.notes[id].body.folderId.value), c.user)
  {
    hide Run;
    RunFilesUnderOwned(db, OwnedFolderIds(db, c.user, Referenced(ms)), c, FoldersFirst(ms));
  }
}
