/** Pushing a committed batch once more, as a client does that never saw the first answer. */
module NotesRetry {
  import opened Wrappers
  import opened Types
  import opened NotesModel
  import opened NotesPush
  import opened NotesBatch

  /** Title, content, pinned, folder and deletion are the same; version and updated_at may have grown. */
  ghost predicate SameValues<B>(a: Cell<B>, b: Cell<B>) {
    && (a.Some? <==> b.Some?)
    && (a.Some? ==>
          && a.value.body == b.value.body && a.value.deletedAt == b.value.deletedAt
          && a.value.creatorId == b.value.creatorId && a.value.createdAt == b.value.createdAt
          && a.value.version <= b.value.version && a.value.updatedAt <= b.value.updatedAt)
  }

  /** Does a repeat of the mutation meet a row that its timestamp beats? The row is then overwritten again. */
  predicate ForcedAgain<B>(cell: Cell<B>, m: Mutation<B>, reject: Option<string>) {
    reject.None? && m.baseVersion.None? && !m.deleted && cell.Some? && m.clientUpdatedAt > cell.value.updatedAt
  }

  /** A delete that named its base version and was applied: the row is a tombstone now, which a repeat cannot look up. */
  predicate VersionedDelete<B>(m: Mutation<B>, r: RowResult<B>) {
    m.deleted && m.baseVersion.Some? && r.outcome == Applied
  }

  /** `m'` is the mutation as the repeat sees it: the same but for a folder it may no longer lose. */
  lemma CellRetry<B>(cell: Cell<B>, c: Caller, c': Caller, m: Mutation<B>, m': Mutation<B>, reject: Option<string>,
                     storable: bool, storable': bool, notFound: NotesError)
    requires c.user == c'.user && c.now < c'.now && m' == m.(body := m'.body)
    requires ApplyToCell(cell, cell, c, m, reject, storable, notFound).Ok?
    requires reject.None? ==> storable'
    requires cell.Some? ==> cell.value.updatedAt <= c.now
    ensures var out := ApplyToCell(cell, cell, c, m, reject, storable, notFound).value;
            var again := ApplyToCell(out.cell, out.cell, c', m', reject, storable', notFound);
            && (again.Ok? <==> !VersionedDelete(m, out.result)
                               && !(ForcedAgain(out.cell, m, reject) && out.cell.value.version == I32_MAX))
            && (again.Ok? ==>
                  if ForcedAgain(out.cell, m, reject) then
                    SameValues(out.cell, again.value.cell) <==> m'.body == m.body
                  else again.value.cell == out.cell)
  {
  }

  /** The result of the first push does not say Applied for a versioned delete, and no overwritten row is at its last version. */
  predicate Repeatable(m: SyncMutation, r: MutationResult, db: Db) {
    match m
    case FolderMutation(fm) =>
      && r.FolderResult? && !VersionedDelete(fm, r.folder)
      && !(ForcedAgain(At(db.folders, fm.id), fm, RejectFolder(fm)) && db.folders[fm.id].version == I32_MAX)
    case NoteMutation(nm) =>
      && r.NoteResult? && !VersionedDelete(nm, r.note)
      && !(ForcedAgain(At(db.notes, nm.id), nm, RejectNote(nm)) && db.notes[nm.id].version == I32_MAX)
  }

  /** A note overwritten again that now keeps a folder it was unfiled from: the same batch created that folder. */
  predicate Refiled(m: SyncMutation, db: Db, owned: set<Uuid>, owned': set<Uuid>) {
    m.NoteMutation? && ForcedAgain(At(db.notes, m.note.id), m.note, RejectNote(m.note))
    && Unfile(m.note, owned) != Unfile(m.note, owned')
  }

  ghost predicate Settled(db: Db, clock: Timestamp) {
    && (forall id | id in db.notes :: db.notes[id].updatedAt <= clock)
    && (forall id | id in db.folders :: db.folders[id].updatedAt <= clock)
  }

  ghost predicate SameValuesOf(m: SyncMutation, db: Db, db': Db) {
    match m
    case FolderMutation(fm) => SameValues(At(db.folders, fm.id), At(db'.folders, fm.id))
    case NoteMutation(nm) => SameValues(At(db.notes, nm.id), At(db'.notes, nm.id))
  }

  lemma FolderRetry(db: Db, c: Caller, m: Mutation<FolderBody>, db1: Db, r: MutationResult, owned: set<Uuid>, c': Caller)
    requires c.user == c'.user && c.now < c'.now && Settled(db, c.now)
    requires AsAlone(db, owned, c, FolderMutation(m), db1, r)
    ensures FolderAlone(db1, c', m).Ok? <==> Repeatable(FolderMutation(m), r, db1)
    ensures FolderAlone(db1, c', m).Ok? ==> SameValues(At(db1.folders, m.id), FolderAlone(db1, c', m).value.cell)
  {
    hide ApplyToCell;
    CellRetry(At(db.folders, m.id), c, c', m, m, RejectFolder(m), StorableFolder(m.body), StorableFolder(m.body), FolderNotFound);
  }

  lemma NoteRetry(db: Db, c: Caller, m: Mutation<NoteBody>, db1: Db, r: MutationResult, owned: set<Uuid>, owned': set<Uuid>, c': Caller)
    requires c.user == c'.user && c.now < c'.now && Settled(db, c.now) && OwnedExist(db1, owned')
    requires AsAlone(db, owned, c, NoteMutation(m), db1, r)
    ensures NoteAlone(db1, owned', c', m).Ok? <==> Repeatable(NoteMutation(m), r, db1)
    ensures NoteAlone(db1, owned', c', m).Ok? ==>
              (SameValues(At(db1.notes, m.id), NoteAlone(db1, owned', c', m).value.cell)
               <==> !Refiled(NoteMutation(m), db1, owned, owned'))
  {
    hide ApplyToCell, Live, Rewritten, Tombstone;
    var u, u' := Unfile(m, owned), Unfile(m, owned');
    UnfiledIsStorable(db1, owned', db1, m);
    assert RejectNote(u) == RejectNote(u') == RejectNote(m);
    assert u' == u.(body := u'.body);
    assert Unfile(m, owned) != Unfile(m, owned') <==> u.body != u'.body;
    CellRetry(At(db.notes, m.id), c, c', u, u', RejectNote(m), StorableNote(db, u.body), StorableNote(db1, u'.body), NoteNotFound);
  }

  lemma MutationRetry(db: Db, c: Caller, m: SyncMutation, db1: Db, r: MutationResult, owned: set<Uuid>, owned': set<Uuid>, c': Caller)
    requires c.user == c'.user && c.now < c'.now && Settled(db, c.now) && OwnedExist(db1, owned')
    requires AsAlone(db, owned, c, m, db1, r)
    ensures AloneOk(db1, owned', c', m) <==> Repeatable(m, r, db1)
    ensures forall db2: Db, r2 :: AsAlone(db1, owned', c', m, db2, r2) ==>
              (SameValuesOf(m, db1, db2) <==> !Refiled(m, db1, owned, owned'))
  {
    hide ApplyToCell, Repeatable, Refiled, SameValues, NoteAlone, FolderAlone;
    match m {
      case FolderMutation(fm) =>
        FolderRetry(db, c, fm, db1, r, owned, c');
        assert !Refiled(m, db1, owned, owned') by { FoldersAreNotRefiled(m, db1, owned, owned'); }
      case NoteMutation(nm) => NoteRetry(db, c, nm, db1, r, owned, owned', c');
    }
  }

  lemma FoldersAreNotRefiled(m: SyncMutation, db: Db, owned: set<Uuid>, owned': set<Uuid>)
    requires m.FolderMutation?
    ensures !Refiled(m, db, owned, owned')
  {
  }

  /**
    A committed batch with distinct ids can be pushed again, with no writes in between, exactly when it applied no versioned
    delete (and overwrites no row whose version column is full).
   */
  lemma RetrySucceedsWithoutVersionedDeletes(db: Db, c: Caller, ms: seq<SyncMutation>, p: Pushed, c': Caller)
    requires |ms| <= MAX_MUTATIONS_PER_PUSH && DistinctIds(ms) && Push(db, c, ms) == Ok(p)
    requires c.user == c'.user && c.now < c'.now && Settled(db, c.now)
    ensures |p.results| == |ms|
    ensures Push(p.db, c', ms).Ok? <==>
              forall i | 0 <= i < |ms| :: Repeatable(ms[i], p.results[i], p.db)
  {
    hide Push, AsAlone, AloneOk, Repeatable, Refiled, OwnedFolderIds, Referenced, OthersKept, SameValuesOf, Settled;
    PushIsApart(db, c, ms);
    PushIsApart(p.db, c', ms);
    OwnedFoldersExist(p.db, c'.user, Referenced(ms));
    forall i | 0 <= i < |ms|
      ensures AloneOk(p.db, OwnedIn(p.db, c', ms), c', ms[i])
         <==> Repeatable(ms[i], p.results[i], p.db)
    {
      MutationRetry(db, c, ms[i], p.db, p.results[i], OwnedIn(db, c, ms), OwnedIn(p.db, c', ms), c');
    }
  }

  /** A successful repeat leaves every value as it was exactly when it refiles no note; rows the batch does not name are untouched. */
  lemma RetryKeepsValues(db: Db, c: Caller, ms: seq<SyncMutation>, p: Pushed, c': Caller, p': Pushed)
    requires |ms| <= MAX_MUTATIONS_PER_PUSH && DistinctIds(ms) && Push(db, c, ms) == Ok(p)
    requires c.user == c'.user && c.now < c'.now && Settled(db, c.now)
    requires Push(p.db, c', ms) == Ok(p')
    ensures forall i | 0 <= i < |ms| ::
              SameValuesOf(ms[i], p.db, p'.db) <==> !Refiled(ms[i], p.db, OwnedIn(db, c, ms), OwnedIn(p.db, c', ms))
    ensures OthersKept(p.db, Tagged(ms), p'.db)
  {
    hide Push, AsAlone, AloneOk, Repeatable, Refiled, OwnedFolderIds, Referenced, OthersKept, SameValuesOf, Settled;
    PushIsApart(db, c, ms);
    PushIsApart(p.db, c', ms);
    OwnedFoldersExist(p.db, c'.user, Referenced(ms));
    forall i | 0 <= i < |ms|
      ensures SameValuesOf(ms[i], p.db, p'.db) <==> !Refiled(ms[i], p.db, OwnedIn(db, c, ms), OwnedIn(p.db, c', ms))
    {
      MutationRetry(db, c, ms[i], p.db, p.results[i], OwnedIn(db, c, ms), OwnedIn(p.db, c', ms), c');
    }
  }

  /** No note of the batch names a folder that a mutation of the batch would create. */
  predicate NamesNoNewFolder(db: Db, ms: seq<SyncMutation>) {
    forall m, f | m in ms && f in ms && m.NoteMutation? && f.FolderMutation? && m.note.body.folderId == Some(f.folder.id) ::
      f.folder.id in db.folders
  }

  lemma OwnershipIsStable(db: Db, c: Caller, ms: seq<SyncMutation>, p: Pushed, id: Uuid)
    requires |ms| <= MAX_MUTATIONS_PER_PUSH && DistinctIds(ms) && Push(db, c, ms) == Ok(p)
    requires NamesNoNewFolder(db, ms) && id in Referenced(ms)
    ensures Owned(At(p.db.folders, id), c.user) <==> Owned(At(db.folders, id), c.user)
  {
    hide Push, AloneOk, AsAlone, OwnedFolderIds;
    PushIsApart(db, c, ms);
    if forall x | x in Tagged(ms) :: x.1.FolderMutation? ==> MutationId(x.1) != id {
    } else {
      var x :| x in Tagged(ms) && x.1.FolderMutation? && MutationId(x.1) == id;
      var i := x.0;
      assert ms[i] == x.1 && ms[i] in ms;
      var m :| m in ms && m.NoteMutation? && m.note.body.folderId == Some(id);
      assert id in db.folders;
      assert AsAlone(db, OwnedIn(db, c, ms), c, ms[i], p.db, p.results[i]);
      KeepsCreator(db, OwnedIn(db, c, ms), c, ms[i], p.db, p.results[i]);
    }
  }

  lemma KeepsCreator(db: Db, owned: set<Uuid>, c: Caller, m: SyncMutation, db': Db, r: MutationResult)
    requires m.FolderMutation? && m.folder.id in db.folders && AsAlone(db, owned, c, m, db', r)
    ensures m.folder.id in db'.folders && db'.folders[m.folder.id].creatorId == db.folders[m.folder.id].creatorId
  {
  }

  /** Safe retry: without versioned deletes, full versions and notes filed into folders of the same batch, nothing but versions moves. */
  lemma SafeRetry(db: Db, c: Caller, ms: seq<SyncMutation>, p: Pushed, c': Caller)
    requires |ms| <= MAX_MUTATIONS_PER_PUSH && DistinctIds(ms) && Push(db, c, ms) == Ok(p)
    requires c.user == c'.user && c.now < c'.now && Settled(db, c.now)
    requires NamesNoNewFolder(db, ms)
    requires forall i | 0 <= i < |ms| && i < |p.results| :: Repeatable(ms[i], p.results[i], p.db)
    ensures Push(p.db, c', ms).Ok?
    ensures var p' := Push(p.db, c', ms).value;
            && (forall i | 0 <= i < |ms| :: SameValuesOf(ms[i], p.db, p'.db))
            && OthersKept(p.db, Tagged(ms), p'.db)
  {
    hide Push, AsAlone, AloneOk, Repeatable, OthersKept, SameValuesOf, Settled, NamesNoNewFolder;
    RetrySucceedsWithoutVersionedDeletes(db, c, ms, p, c');
    RetryKeepsValues(db, c, ms, p, c', Push(p.db, c', ms).value);
    forall id | id in Referenced(ms)
      ensures id in OwnedIn(p.db, c', ms) <==> id in OwnedIn(db, c, ms)
    {
      OwnershipIsStable(db, c, ms, p, id);
    }
    assert OwnedIn(p.db, c', ms) == OwnedIn(db, c, ms);
  }
}
