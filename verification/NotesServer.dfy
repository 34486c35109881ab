/** The notes service in its own imperative form, proved against the functions the other modules reason about. */
module NotesServer {
  import opened Wrappers
  import opened Types
  import opened NotesModel
  import opened NotesPush
  import opened NotesCommands
  import BatchedDelete

  /** One table as an open transaction sees it. */
  class OpenTable<B> {
    var rows: Table<B>

    constructor (committed: Table<B>)
      ensures rows == committed
    {
      rows := committed;
    }

    /** `INSERT ... ON CONFLICT (id) DO NOTHING RETURNING *` */
    method UpsertIfAbsent(id: Uuid, c: Caller, body: B, storable: bool) returns (r: Result<Option<Row<B>>, NotesError>)
      modifies this
      ensures id in old(rows) ==> r == Ok(None) && rows == old(rows)
      ensures id !in old(rows) && !storable ==> r == Err(Database) && rows == old(rows)
      ensures id !in old(rows) && storable ==> r == Ok(Some(Inserted(c, body))) && rows == old(rows)[id := Inserted(c, body)]
    {
      if id in rows {
        return Ok(None);
      }
      if !storable {
        return Err(Database);
      }
      var row := Inserted(c, body);
      rows := rows[id := row];
      r := Ok(Some(row));
    }

    /** `UPDATE ... WHERE id AND creator_id [AND version]`: the guard is left out when `base` is None. */
    method ApplySnapshot(id: Uuid, c: Caller, base: Option<int>, body: B, deleted: bool, storable: bool)
      returns (r: Result<Option<Row<B>>, NotesError>)
      modifies this
      ensures var matches := Owned(At(old(rows), id), c.user) && (base.Some? ==> old(rows)[id].version == base.value);
              if !matches then r == Ok(None) && rows == old(rows)
              else
                var written := Rewritten(old(rows)[id], body, Tombstone(old(rows)[id].deletedAt, deleted, c.now), storable, c.now);
                && (written.Err? ==> r == Err(written.error) && rows == old(rows))
                && (written.Ok? ==> r == Ok(Some(written.value)) && rows == old(rows)[id := written.value])
    {
      if id !in rows || rows[id].creatorId != c.user || (base.Some? && rows[id].version != base.value) {
        return Ok(None);
      }
      var written := Rewritten(rows[id], body, Tombstone(rows[id].deletedAt, deleted, c.now), storable, c.now);
      if written.Err? {
        return Err(written.error);
      }
      rows := rows[id := written.value];
      r := Ok(Some(written.value));
    }
  }

  /** `apply_note_mutation` and `apply_folder_mutation`: writes go to the open table, lookups to the committed one. */
  method ApplyMutation<B>(tx: OpenTable<B>, committed: Table<B>, c: Caller, m: Mutation<B>,
                          reject: Option<string>, storable: bool, notFound: NotesError)
    returns (r: Result<RowResult<B>, NotesError>)
    modifies tx
    ensures var out := ApplyToCell(At(committed, m.id), At(old(tx.rows), m.id), c, m, reject, storable, notFound);
            && (out.Ok? ==> r == Ok(out.value.result) && tx.rows == Put(old(tx.rows), m.id, out.value.cell))
            && (out.Err? ==> r == Err(out.error) && tx.rows == old(tx.rows))
  {
    if reject.Some? {
      return Ok(RowResult(m.id, Rejected, None, reject));
    }
    match m.baseVersion {
      case None =>
        if m.deleted {
          return Ok(RowResult(m.id, Applied, None, None));
        }
        var inserted := tx.UpsertIfAbsent(m.id, c, m.body, storable);
        if inserted.Err? {
          return Err(inserted.error);
        }
        if inserted.value.Some? {
          return Ok(RowResult(m.id, Applied, Some(ToDto(m.id, inserted.value.value)), None));
        }
        var existing := At(committed, m.id);
        if !Live(existing, c.user) {
          return Err(notFound);
        }
        if m.clientUpdatedAt > existing.value.updatedAt {
          var forced := tx.ApplySnapshot(m.id, c, None, m.body, m.deleted, storable);
          if forced.Err? {
            return Err(forced.error);
          }
          if forced.value.None? {
            return Err(Database);
          }
          return Ok(RowResult(m.id, Applied, Some(ToDto(m.id, forced.value.value)), None));
        }
        return Ok(RowResult(m.id, Conflict, Some(ToDto(m.id, existing.value)), None));
      case Some(base) =>
        var written := tx.ApplySnapshot(m.id, c, Some(base), m.body, m.deleted, storable);
        if written.Err? {
          return Err(written.error);
        }
        if written.value.Some? {
          return Ok(RowResult(m.id, Applied, Some(ToDto(m.id, written.value.value)), None));
        }
        var existing := At(committed, m.id);
        if !Live(existing, c.user) {
          return Err(notFound);
        }
        return Ok(RowResult(m.id, Conflict, Some(ToDto(m.id, existing.value)), None));
    }
  }

  /** The two queues hold what belongs in them of the first `idx` mutations. */
  ghost predicate SplitUpTo(q: Queue, idx: nat, folders: Queue, notes: Queue)
    requires idx <= |q|
  {
    folders == Only(q[..idx], true) && notes == Only(q[..idx], false)
  }

  lemma OnlyUpTo(q: Queue, idx: nat, folders: bool)
    requires idx < |q|
    ensures Only(q[..idx + 1], folders) == Only(q[..idx], folders) + if q[idx].1.FolderMutation? == folders then [q[idx]] else []
  {
    OnlyLast(q[..idx], q[idx], folders);
    hide Only;
    assert q[..idx + 1] == q[..idx] + [q[idx]];
  }

  lemma SplitStarts(q: Queue)
    ensures SplitUpTo(q, 0, [], [])
  {
  }

  lemma SplitGoesOn(q: Queue, idx: nat, folders: Queue, notes: Queue)
    requires idx < |q| && SplitUpTo(q, idx, folders, notes)
    ensures q[idx].1.FolderMutation? ==> SplitUpTo(q, idx + 1, folders + [q[idx]], notes)
    ensures !q[idx].1.FolderMutation? ==> SplitUpTo(q, idx + 1, folders, notes + [q[idx]])
  {
    hide Only;
    OnlyUpTo(q, idx, true);
    OnlyUpTo(q, idx, false);
  }

  lemma SplitEnds(q: Queue, folders: Queue, notes: Queue)
    requires SplitUpTo(q, |q|, folders, notes)
    ensures folders == Only(q, true) && notes == Only(q, false)
  {
    assert q[..|q|] == q;
  }

  /** Splitting keeps each mutation's position, and the relative order within a type. */
  method SplitByType(mutations: seq<SyncMutation>) returns (folderMutations: Queue, noteMutations: Queue)
    ensures folderMutations == Only(Tagged(mutations), true) && noteMutations == Only(Tagged(mutations), false)
  {
    hide Only, Tagged, SplitUpTo;
    ghost var tagged := Tagged(mutations);
    folderMutations, noteMutations := [], [];
    SplitStarts(tagged);
    for idx := 0 to |mutations|
      invariant SplitUpTo(tagged, idx, folderMutations, noteMutations)
    {
      SplitGoesOn(tagged, idx, folderMutations, noteMutations);
      match mutations[idx] {
        case FolderMutation(_) => folderMutations := folderMutations + [(idx, mutations[idx])];
        case NoteMutation(_) => noteMutations := noteMutations + [(idx, mutations[idx])];
      }
    }
    SplitEnds(tagged, folderMutations, noteMutations);
  }

  method ApplyFolders(db: Db, ghost owned: set<Uuid>, c: Caller, queue: Queue, tx: OpenTable<FolderBody>)
    returns (r: Result<Results, NotesError>)
    requires tx.rows == db.folders && forall x | x in queue :: x.1.FolderMutation?
    modifies tx
    ensures var run := Run(db, owned, c, queue);
            && (run.Ok? ==> r == Ok(run.value.results) && run.value == Progress(Db(db.notes, tx.rows), run.value.results, []))
            && (run.Err? ==> r == Err(run.error))
  {
    hide ApplyToCell;
    var results: Results := [];
    for i := 0 to |queue|
      invariant Run(db, owned, c, queue[..i]) == Ok(Progress(Db(db.notes, tx.rows), results, []))
    {
      var item := queue[i];
      assert item in queue;
      RunLast(db, owned, c, queue[..i], item);
      assert queue[..i + 1] == queue[..i] + [item];
      var m := item.1.folder;
      var result := ApplyMutation(tx, db.folders, c, m, RejectFolder(m), StorableFolder(m.body), FolderNotFound);
      if result.Err? {
        RunStopsAtError(db, owned, c, queue, i + 1);
        return Err(result.error);
      }
      results := results + [(item.0, FolderResult(result.value))];
    }
    assert queue[..|queue|] == queue;
    r := Ok(results);
  }

  method ApplyNotes(db: Db, owned: set<Uuid>, c: Caller, ghost done: Queue, folders: Table<FolderBody>, earlier: Results,
                    queue: Queue, tx: OpenTable<NoteBody>)
    returns (r: Result<Results, NotesError>)
    requires tx.rows == db.notes && forall x | x in queue :: x.1.NoteMutation?
    requires Run(db, owned, c, done) == Ok(Progress(Db(db.notes, folders), earlier, []))
    modifies tx
    ensures var run := Run(db, owned, c, done + queue);
            && (run.Ok? ==> r == Ok(run.value.results) && run.value.db == Db(tx.rows, folders))
            && (run.Err? ==> r == Err(run.error))
  {
    hide ApplyToCell, Run, Unfile, StorableNote, RejectNote;
    var results := earlier;
    ghost var writes: seq<NoteWrite> := [];
    assert done + queue[..0] == done;
    for j := 0 to |queue|
      invariant Run(db, owned, c, done + queue[..j]) == Ok(Progress(Db(tx.rows, folders), results, writes))
    {
      var item := queue[j];
      assert item in queue;
      RunLast(db, owned, c, done + queue[..j], item);
      assert done + queue[..j + 1] == (done + queue[..j]) + [item];
      var m := Unfile(item.1.note, owned);
      var storable := StorableNote(Db(tx.rows, folders), m.body);
      ghost var out := ApplyToCell(At(db.notes, m.id), At(tx.rows, m.id), c, m, RejectNote(m), storable, NoteNotFound);
      var result := ApplyMutation(tx, db.notes, c, m, RejectNote(m), storable, NoteNotFound);
      if result.Err? {
        assert (done + queue)[..|done| + j + 1] == done + queue[..j + 1];
        RunStopsAtError(db, owned, c, done + queue, |done| + j + 1);
        return Err(result.error);
      }
      results := results + [(item.0, NoteResult(result.value))];
      writes := writes + Logged(m.id, out.value.write);
    }
    assert queue[..|queue|] == queue;
    r := Ok(results);
  }

  class NotesService {
    var db: Db

    constructor (committed: Db)
      ensures db == committed
    {
      db := committed;
    }

    /** The update either matches, or its row is looked up to tell a missing note from a version conflict. */
    method UpdateNote(c: Caller, id: Uuid, base: int, title: Option<string>, content: Option<string>,
                      pinned: Option<bool>, folderId: Option<Uuid>)
      returns (r: Result<Dto<NoteBody>, NotesError>)
      modifies this
      ensures var d := Execute(old(db), c, Command.UpdateNote(id, base, title, content, pinned, folderId));
              db == d.db && (r.Ok? ==> d.reply == Ok(OneNote(r.value))) && (r.Err? ==> d.reply == Err(r.error))
    {
      var cell := At(db.notes, id);
      if Live(cell, c.user) && cell.value.version == base {
        var was := cell.value.body;
        var body := NoteBody(title.GetOr(was.title), content.GetOr(was.content), pinned.GetOr(was.pinned), folderId);
        var written := Rewritten(cell.value, body, None, StorableNote(db, body), c.now);
        if written.Err? {
          return Err(written.error);
        }
        db := db.(notes := db.notes[id := written.value]);
        return Ok(ToDto(id, written.value));
      }
      r := CurrentNote(c, id);
    }

    method DeleteNote(c: Caller, id: Uuid, base: int) returns (r: Result<Dto<NoteBody>, NotesError>)
      modifies this
      ensures var d := Execute(old(db), c, Command.DeleteNote(id, base));
              db == d.db && (r.Ok? ==> d.reply == Ok(OneNote(r.value))) && (r.Err? ==> d.reply == Err(r.error))
    {
      var cell := At(db.notes, id);
      if Live(cell, c.user) && cell.value.version == base {
        var written := Rewritten(cell.value, cell.value.body, Some(c.now), true, c.now);
        if written.Err? {
          return Err(written.error);
        }
        db := db.(notes := db.notes[id := written.value]);
        return Ok(ToDto(id, written.value));
      }
      r := CurrentNote(c, id);
    }

    method CurrentNote(c: Caller, id: Uuid) returns (r: Result<Dto<NoteBody>, NotesError>)
      ensures r == if Live(At(db.notes, id), c.user) then Err(VersionConflict(NoteEntity(ToDto(id, db.notes[id]))))
                   else Err(NoteNotFound)
    {
      var cell := At(db.notes, id);
      if !Live(cell, c.user) {
        return Err(NoteNotFound);
      }
      r := Err(VersionConflict(NoteEntity(ToDto(id, cell.value))));
    }

    /** The whole push: split by type, folders, ownership, notes, commit, results back in submission order. */
    method SyncPush(c: Caller, mutations: seq<SyncMutation>) returns (r: Result<seq<MutationResult>, NotesError>)
      modifies this
      ensures var pushed := Push(old(db), c, mutations);
              && (pushed.Ok? ==> r == Ok(pushed.value.results) && db == pushed.value.db)
              && (pushed.Err? ==> r == Err(pushed.error) && db == old(db))
    {
      hide Run, Only, Tagged, SortByIndex, Referenced, OwnedFolderIds;
      if mutations == [] {
        return Ok([]);
      }
      if |mutations| > MAX_MUTATIONS_PER_PUSH {
        return Err(BadRequest("Cannot push more than 200 mutations per request"));
      }
      var folderMutations, noteMutations := SplitByType(mutations);
      var owned := OwnedFolderIds(db, c.user, Referenced(mutations));
      var folderTx := new OpenTable(db.folders);
      var noteTx := new OpenTable(db.notes);
      var folderResults := ApplyFolders(db, owned, c, folderMutations, folderTx);
      if folderResults.Err? {
        assert FoldersFirst(mutations)[..|folderMutations|] == folderMutations;
        RunStopsAtError(db, owned, c, FoldersFirst(mutations), |folderMutations|);
        return Err(folderResults.error);
      }
      var results := ApplyNotes(db, owned, c, folderMutations, folderTx.rows, folderResults.value, noteMutations, noteTx);
      if results.Err? {
        return Err(results.error);
      }
      FoldersFirstIndices(mutations);
      db := Db(noteTx.rows, folderTx.rows);
      r := Ok(Untagged(SortByIndex(results.value)));
    }

    /** Deletes exactly the tombstones older than the cutoff, whichever rows each batch picks, and counts them. */
    method PurgeDeletedNotes(cutoff: Timestamp) returns (total: nat)
      modifies this
      ensures db == NotesCommands.PurgeNotes(old(db), Purgeable(old(db).notes, cutoff))
      ensures total == |Purgeable(old(db).notes, cutoff)| == |old(db).notes| - |db.notes|
      ensures db.folders == old(db).folders
      ensures forall id :: id in db.notes <==>
                id in old(db).notes && !(old(db).notes[id].deletedAt.Some? && old(db).notes[id].deletedAt.value < cutoff)
      ensures forall id | id in db.notes :: db.notes[id] == old(db).notes[id]
    {
      var stale := (round: nat, row: Row<NoteBody>) => row.deletedAt.Some? && row.deletedAt.value < cutoff;
      var rows, n, last := BatchedDelete.DeleteInBatches(db.notes, stale);
      assert BatchedDelete.StaleAt(db.notes, stale, last) == Purgeable(db.notes, cutoff);
      assert rows == Without(db.notes, Purgeable(db.notes, cutoff));
      CountGone(db.notes, Purgeable(db.notes, cutoff));
      db := db.(notes := rows);
      total := n;
    }

    /**
      The same loop on folders, whose rounds run at times `now(k)`: each deleted folder is also taken off its notes, which are
      stamped with the time of that round and keep their version.
     */
    method PurgeDeletedFolders(cutoff: Timestamp, now: nat -> Timestamp) returns (total: nat)
      modifies this
      ensures FoldersPurged(old(db), db, Purgeable(old(db).folders, cutoff), now)
      ensures total == |Purgeable(old(db).folders, cutoff)| == |old(db).folders| - |db.folders|
      ensures forall id :: id in db.folders <==>
                id in old(db).folders && !(old(db).folders[id].deletedAt.Some? && old(db).folders[id].deletedAt.value < cutoff)
      ensures forall id | id in db.folders :: db.folders[id] == old(db).folders[id]
    {
      total := 0;
      var round := 0;
      ghost var start := db;
      ghost var stale := Purgeable(db.folders, cutoff);
      ghost var gone: set<Uuid> := {};
      while true
        invariant FoldersPurged(start, db, gone, now) && gone <= stale
        invariant Purgeable(db.folders, cutoff) == stale - gone && total == |gone|
        decreases |stale - gone|
      {
        var matching := Purgeable(db.folders, cutoff);
        var batch := BatchedDelete.PickBatch(matching);
        PurgeRound(start, db, stale, gone, cutoff, batch, now, round);
        db := NotesCommands.PurgeFolders(db, batch, now(round));
        total := total + |batch|;
        gone := gone + batch;
        if |batch| < BatchedDelete.BATCH {
          BatchedDelete.Exhausted(matching, batch);
          assert gone == stale;
          CountGone(start.folders, stale);
          break;
        }
        round := round + 1;
      }
    }
  }

  lemma CountGone<B>(table: Table<B>, gone: set<Uuid>)
    requires gone <= table.Keys
    ensures |Without(table, gone)| == |table| - |gone|
  {
    assert table.Keys == Without(table, gone).Keys + gone;
    assert |table| == |table.Keys| && |Without(table, gone)| == |Without(table, gone).Keys|;
  }

  /** A note before and after some folders are gone. */
  ghost predicate UnfiledFrom(was: Row<NoteBody>, row: Row<NoteBody>, gone: set<Uuid>, now: nat -> Timestamp) {
    if was.body.folderId.Some? && was.body.folderId.value in gone
    then exists k: nat :: row == was.(body := was.body.(folderId := None), updatedAt := now(k))
    else row == was
  }

  /** The folders `gone` are deleted, the others untouched, and the notes that were in them unfiled. */
  ghost predicate FoldersPurged(was: Db, db: Db, gone: set<Uuid>, now: nat -> Timestamp) {
    && db.folders == Without(was.folders, gone)
    && db.notes.Keys == was.notes.Keys
    && forall id | id in db.notes :: UnfiledFrom(was.notes[id], db.notes[id], gone, now)
  }

  lemma UnfiledOnce(was: Row<NoteBody>, mid: Row<NoteBody>, row: Row<NoteBody>, gone: set<Uuid>, batch: set<Uuid>,
                    now: nat -> Timestamp, k: nat)
    requires UnfiledFrom(was, mid, gone, now)
    requires row == if mid.body.folderId.Some? && mid.body.folderId.value in batch
                    then mid.(body := mid.body.(folderId := None), updatedAt := now(k)) else mid
    ensures UnfiledFrom(was, row, gone + batch, now)
  {
  }

  lemma PurgeRound(start: Db, db: Db, stale: set<Uuid>, gone: set<Uuid>, cutoff: Timestamp, batch: set<Uuid>,
                   now: nat -> Timestamp, k: nat)
    requires FoldersPurged(start, db, gone, now) && gone <= stale && Purgeable(db.folders, cutoff) == stale - gone
    requires batch <= stale - gone
    ensures var db' := NotesCommands.PurgeFolders(db, batch, now(k));
            && FoldersPurged(start, db', gone + batch, now)
            && Purgeable(db'.folders, cutoff) == stale - (gone + batch)
    ensures |gone + batch| == |gone| + |batch| && |stale - gone| == |stale - (gone + batch)| + |batch|
  {
    hide UnfiledFrom;
    var db' := NotesCommands.PurgeFolders(db, batch, now(k));
    forall id | id in db'.notes
      ensures UnfiledFrom(start.notes[id], db'.notes[id], gone + batch, now)
    {
      UnfiledOnce(start.notes[id], db.notes[id], db'.notes[id], gone, batch, now, k);
    }
    assert stale - gone == (stale - (gone + batch)) + batch;
  }
}
