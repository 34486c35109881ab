/**
  A client's copy of one table, kept by applying sync pages, against a server that keeps changing.
  Notes and folders follow the same argument, so it is made once for any body.
 */
module NotesReplica {
  import opened Wrappers
  import opened Types
  import opened Cursors
  import opened Keyset
  import opened Pagination
  import opened NotesModel
  import opened NotesPull

  type Copy<+B> = map<Uuid, Dto<B>>

  /** The client stores each row of a page under its id. */
  function Merge<B>(copy: Copy<B>, page: seq<Dto<B>>): Copy<B>
    decreases |page|
  {
    if page == [] then copy else Merge(copy[page[0].id := page[0]], page[1..])
  }

  /**
    What one transaction at time `now` may do to a table: touched rows are stamped `now` and keep their owner, a tombstone
    is kept, cleared or stamped `now`, and a row disappears only as a tombstone older than the cutoff of a purge.
   */
  ghost predicate Evolves<B>(t: Table<B>, t': Table<B>, now: Timestamp, cutoff: Option<Timestamp>) {
    && (forall id | id in t && id !in t' ::
          cutoff.Some? && t[id].deletedAt.Some? && t[id].deletedAt.value < cutoff.value)
    && (forall id | id in t' ::
          if id in t then
            t'[id] == t[id] || (t'[id].updatedAt == now && t'[id].creatorId == t[id].creatorId
                                && (t'[id].deletedAt in {None, Some(now), t[id].deletedAt}))
          else t'[id].updatedAt == now && t'[id].deletedAt in {None, Some(now)})
  }

  /** Is the row at or before the cursor? */
  ghost predicate Passed(at: Option<Key>, k: Key) {
    at.Some? && !Before(Asc, at.value, k)
  }

  /** Every own row at or before the cursor is held with its current value. */
  ghost predicate Current<B>(t: Table<B>, user: Uuid, copy: Copy<B>, at: Option<Key>) {
    forall id | id in t && t[id].creatorId == user && Passed(at, Key(t[id].updatedAt, id)) ::
      id in copy && copy[id] == ToDto(id, t[id])
  }

  /** Nothing is live on the client that the server does not hold. */
  ghost predicate NoGhosts<B>(t: Table<B>, user: Uuid, copy: Copy<B>) {
    forall id | id in copy && !copy[id].deleted :: Owned(At(t, id), user)
  }

  /** Rows deleted up to `horizon` and not undeleted since are known to be deleted. */
  ghost predicate TombstonesKnown<B>(t: Table<B>, user: Uuid, copy: Copy<B>, horizon: Option<Timestamp>) {
    horizon.Some? ==>
      forall id | id in t && t[id].creatorId == user && t[id].deletedAt.Some? && t[id].deletedAt.value <= horizon.value ::
        id in copy && copy[id].deleted
  }

  ghost predicate InPast<B>(t: Table<B>, at: Option<Key>, horizon: Option<Timestamp>, clock: Timestamp) {
    && (forall id | id in t :: t[id].updatedAt <= clock)
    && (at.Some? ==> at.value.ts <= clock)
    && (horizon.Some? ==> horizon.value <= clock)
  }

  ghost predicate Good<B>(t: Table<B>, user: Uuid, copy: Copy<B>, at: Option<Key>, horizon: Option<Timestamp>, clock: Timestamp) {
    && InPast(t, at, horizon, clock)
    && Current(t, user, copy, at)
    && NoGhosts(t, user, copy)
    && TombstonesKnown(t, user, copy, horizon)
  }

  /** A transaction of anyone keeps the client's copy good, a purge included if its cutoff is within the horizon. */
  lemma EvolvingKeepsGood<B>(t: Table<B>, t': Table<B>, user: Uuid, copy: Copy<B>, at: Option<Key>,
                             horizon: Option<Timestamp>, clock: Timestamp, now: Timestamp, cutoff: Option<Timestamp>)
    requires Good(t, user, copy, at, horizon, clock)
    requires clock < now && Evolves(t, t', now, cutoff)
    requires cutoff.Some? ==> horizon.Some? && cutoff.value <= horizon.value
    ensures Good(t', user, copy, at, horizon, now)
  {
  }

  lemma {:induction false} MergeAt<B>(copy: Copy<B>, page: seq<Dto<B>>, t: Table<B>, id: Uuid)
    requires forall r | r in page :: r.id in t && r == ToDto(r.id, t[r.id])
    ensures var merged := Merge(copy, page);
            if exists r :: r in page && r.id == id then id in merged && id in t && merged[id] == ToDto(id, t[id])
            else (id in merged <==> id in copy) && (id in copy ==> merged[id] == copy[id])
    decreases |page|
  {
    if page != [] {
      assert page == [page[0]] + page[1..];
      MergeAt(copy[page[0].id := page[0]], page[1..], t, id);
    }
  }

  function CursorKey(cursor: Option<Cursor>): Option<Key>
    requires Position(cursor).Ok?
  {
    Position(cursor).value
  }

  lemma FetchedRows<B>(t: Table<B>, user: Uuid, at: Option<Key>, limit: nat)
    ensures var fetched := ChangedSince(t, user, at, limit + 1);
            var rows := Take(fetched, limit);
            var all := Ordered(Asc, After(Asc, OwnKeys(t, user), at));
            && |rows| == (if |all| <= limit then |all| else limit)
            && (|fetched| > limit <==> |all| > limit)
            && (forall i | 0 <= i < |rows| ::
                  && all[i].id in t && t[all[i].id].creatorId == user && t[all[i].id].updatedAt == all[i].ts
                  && rows[i] == ToDto(all[i].id, t[all[i].id]))
  {
    hide Ordered;
    var keys := OwnKeys(t, user);
    var all := Ordered(Asc, After(Asc, keys, at));
    var fetched := Fetch(Asc, keys, at, limit + 1);
    assert forall i | 0 <= i < |all| && i < limit :: fetched[i] == all[i] && all[i] in keys;
  }

  /** A page is the first rows of what is left, in order, and its cursor is the key of the last one. */
  lemma PageShape<B>(t: Table<B>, user: Uuid, cursor: Option<Cursor>, limit: nat)
    requires Position(cursor).Ok? && limit > 0
    ensures PullTable(t, user, cursor, limit).Ok?
    ensures var page := PullTable(t, user, cursor, limit).value;
            var all := Ordered(Asc, After(Asc, OwnKeys(t, user), CursorKey(cursor)));
            && |page.rows| == (if |all| <= limit then |all| else limit)
            && (page.hasMore <==> |all| > limit)
            && (forall i | 0 <= i < |page.rows| ::
                  && all[i].id in t && t[all[i].id].creatorId == user && t[all[i].id].updatedAt == all[i].ts
                  && page.rows[i] == ToDto(all[i].id, t[all[i].id]))
            && Position(page.nextCursor).Ok?
            && CursorKey(page.nextCursor) == if page.rows == [] then CursorKey(cursor) else Some(all[|page.rows| - 1])
  {
    hide ToTimestampId, FromTimestampId, Ordered, After, Fetch, Take;
    var keys := OwnKeys(t, user);
    var all := Ordered(Asc, After(Asc, keys, CursorKey(cursor)));
    var page := PullTable(t, user, cursor, limit).value;
    FetchedRows(t, user, CursorKey(cursor), limit);
    if page.rows != [] {
      var last := all[|page.rows| - 1];
      assert page.nextCursor == Some(KeyCursor(last));
      PositionOfKey(last);
    }
  }

  /** A row still ahead of the old cursor is on the page if the new cursor passes it, or if there is no more. */
  lemma PageCovers<B>(t: Table<B>, user: Uuid, cursor: Option<Cursor>, limit: nat, id: Uuid)
    requires Position(cursor).Ok? && limit > 0
    requires id in t && t[id].creatorId == user
    ensures var page := PullTable(t, user, cursor, limit).value;
            var k := Key(t[id].updatedAt, id);
            Position(page.nextCursor).Ok? &&
            (Passed(CursorKey(page.nextCursor), k) || !page.hasMore ==>
               Passed(CursorKey(cursor), k) || ToDto(id, t[id]) in page.rows)
  {
    hide PullTable, Position, Ordered;
    PageShape(t, user, cursor, limit);
    var page := PullTable(t, user, cursor, limit).value;
    var keys := OwnKeys(t, user);
    var all := Ordered(Asc, After(Asc, keys, CursorKey(cursor)));
    var k := Key(t[id].updatedAt, id);
    assert k in keys;
    if !Passed(CursorKey(cursor), k) {
      assert k in After(Asc, keys, CursorKey(cursor));
      assert k in all;
      var i :| 0 <= i < |all| && all[i] == k;
      if i < |page.rows| {
        assert page.rows[i] == ToDto(id, t[id]);
      } else if |page.rows| > 0 {
        assert Before(Asc, all[|page.rows| - 1], all[i]);
      }
    }
  }

  /** Applying a page keeps the copy good; a page without more makes the horizon the time of the pull. */
  lemma PullingKeepsGood<B>(t: Table<B>, user: Uuid, copy: Copy<B>, cursor: Option<Cursor>, horizon: Option<Timestamp>,
                            clock: Timestamp, now: Timestamp, limit: nat)
    requires Position(cursor).Ok? && limit > 0
    requires Good(t, user, copy, CursorKey(cursor), horizon, clock) && clock <= now
    ensures var page := PullTable(t, user, cursor, limit).value;
            && Position(page.nextCursor).Ok?
            && Good(t, user, Merge(copy, page.rows), CursorKey(page.nextCursor), if page.hasMore then horizon else Some(now), now)
            && (!page.hasMore ==>
                  forall id | id in t && t[id].creatorId == user ::
                    id in Merge(copy, page.rows) && Merge(copy, page.rows)[id] == ToDto(id, t[id]))
            && (forall id | id in Merge(copy, page.rows) :: id in copy || Owned(At(t, id), user))
  {
    hide PullTable, Position, Ordered, Merge;
    PageShape(t, user, cursor, limit);
    var page := PullTable(t, user, cursor, limit).value;
    var merged := Merge(copy, page.rows);
    forall id | id in t && t[id].creatorId == user
      ensures var k := Key(t[id].updatedAt, id);
              Passed(CursorKey(page.nextCursor), k) || !page.hasMore ==>
                Passed(CursorKey(cursor), k) || ToDto(id, t[id]) in page.rows
    {
      PageCovers(t, user, cursor, limit, id);
    }
    assert forall r | r in page.rows :: r.id in t && Owned(At(t, r.id), user) && r == ToDto(r.id, t[r.id]);
    forall id
      ensures id in t && ToDto(id, t[id]) in page.rows ==> id in merged && merged[id] == ToDto(id, t[id])
      ensures id in merged ==> (id in t && Owned(At(t, id), user) && merged[id] == ToDto(id, t[id]))
                               || (id in copy && merged[id] == copy[id])
      ensures id in copy ==> id in merged
    {
      MergeAt(copy, page.rows, t, id);
    }
  }

  /** The client's copy of a table is the server's rows of that user. */
  ghost predicate Mirrors<B>(t: Table<B>, user: Uuid, copy: Copy<B>) {
    && (forall id :: id in copy <==> Owned(At(t, id), user))
    && (forall id | id in copy :: copy[id] == ToDto(id, t[id]))
  }

  /** With purges, the server's rows and tombstones of rows it has purged. */
  ghost predicate MirrorsLive<B>(t: Table<B>, user: Uuid, copy: Copy<B>) {
    && (forall id | Owned(At(t, id), user) :: id in copy && copy[id] == ToDto(id, t[id]))
    && (forall id | id in copy && !Owned(At(t, id), user) :: copy[id].deleted)
  }

  lemma LevelCopyMirrors<B>(t: Table<B>, user: Uuid, copy: Copy<B>, merged: Copy<B>)
    requires NoGhosts(t, user, merged)
    requires forall id | id in t && t[id].creatorId == user :: id in merged && merged[id] == ToDto(id, t[id])
    requires forall id | id in merged :: id in copy || Owned(At(t, id), user)
    ensures MirrorsLive(t, user, merged)
    ensures (forall id | id in copy :: Owned(At(t, id), user)) ==> Mirrors(t, user, merged)
  {
  }

  /** A page without more brings the copy level with the table. */
  lemma LastPageMirrors<B>(t: Table<B>, user: Uuid, copy: Copy<B>, cursor: Option<Cursor>, horizon: Option<Timestamp>,
                           clock: Timestamp, limit: nat)
    requires Position(cursor).Ok? && limit > 0
    requires Good(t, user, copy, CursorKey(cursor), horizon, clock)
    ensures PullTable(t, user, cursor, limit).Ok?
    ensures var page := PullTable(t, user, cursor, limit).value;
            !page.hasMore ==>
              && MirrorsLive(t, user, Merge(copy, page.rows))
              && ((forall id | id in copy :: Owned(At(t, id), user)) ==> Mirrors(t, user, Merge(copy, page.rows)))
  {
    PageShape(t, user, cursor, limit);
    hide PullTable, Position, Merge, Mirrors, MirrorsLive, NoGhosts, Current, TombstonesKnown, InPast, Ordered, ToDto;
    PullingKeepsGood(t, user, copy, cursor, horizon, clock, clock, limit);
    var page := PullTable(t, user, cursor, limit).value;
    if !page.hasMore {
      LevelCopyMirrors(t, user, copy, Merge(copy, page.rows));
    }
  }

  // ---- catching up ----

  /** The own rows still ahead of the cursor. */
  function Ahead<B>(t: Table<B>, user: Uuid, cursor: Option<Cursor>): set<Key>
    requires Position(cursor).Ok?
  {
    After(Asc, OwnKeys(t, user), CursorKey(cursor))
  }

  /** A page with more leaves exactly `limit` fewer rows ahead. */
  lemma PullAdvances<B>(t: Table<B>, user: Uuid, cursor: Option<Cursor>, limit: nat)
    requires Position(cursor).Ok? && limit > 0
    ensures PullTable(t, user, cursor, limit).Ok?
    ensures var page := PullTable(t, user, cursor, limit).value;
            Position(page.nextCursor).Ok?
            && (page.hasMore ==> |Ahead(t, user, page.nextCursor)| == |Ahead(t, user, cursor)| - limit)
  {
    hide PullTable, Position, Ordered, After;
    PageShape(t, user, cursor, limit);
    var page := PullTable(t, user, cursor, limit).value;
    if page.hasMore {
      ResumeAfter(Asc, OwnKeys(t, user), CursorKey(cursor), limit);
    }
  }

  /** The client pulls and applies pages until one reports no more; the server stands still meanwhile. */
  ghost function CatchUp<B>(t: Table<B>, user: Uuid, copy: Copy<B>, cursor: Option<Cursor>, limit: nat): Copy<B>
    requires Position(cursor).Ok? && limit > 0
    decreases |Ahead(t, user, cursor)|
  {
    PullAdvances(t, user, cursor, limit);
    var page := PullTable(t, user, cursor, limit).value;
    var merged := Merge(copy, page.rows);
    if page.hasMore then CatchUp(t, user, merged, page.nextCursor, limit) else merged
  }

  /** Catching up ends, with every page size, and brings the copy level with the table. */
  lemma {:induction false} CatchingUpMirrors<B>(t: Table<B>, user: Uuid, copy: Copy<B>, cursor: Option<Cursor>,
                                                horizon: Option<Timestamp>, clock: Timestamp, limit: nat)
    requires Position(cursor).Ok? && limit > 0
    requires Good(t, user, copy, CursorKey(cursor), horizon, clock)
    ensures MirrorsLive(t, user, CatchUp(t, user, copy, cursor, limit))
    ensures (forall id | id in copy :: Owned(At(t, id), user)) ==> Mirrors(t, user, CatchUp(t, user, copy, cursor, limit))
    decreases |Ahead(t, user, cursor)|
  {
    hide PullTable, Position, Merge, Good, Ahead, Mirrors, MirrorsLive;
    PullAdvances(t, user, cursor, limit);
    var page := PullTable(t, user, cursor, limit).value;
    if page.hasMore {
      PullingKeepsGood(t, user, copy, cursor, horizon, clock, clock, limit);
      CatchingUpMirrors(t, user, Merge(copy, page.rows), page.nextCursor, horizon, clock, limit);
    } else {
      LastPageMirrors(t, user, copy, cursor, horizon, clock, limit);
    }
  }
}
