/** Batches whose ids are distinct per entity type: each mutation then acts as if it were alone. */
module NotesBatch {
  import opened Wrappers
  import opened Types
  import opened NotesModel
  import opened NotesPush

  predicate DistinctIds(ms: seq<SyncMutation>) {
    forall i, j | 0 <= i < j < |ms| ::
      (ms[i].FolderMutation? <==> ms[j].FolderMutation?) ==> MutationId(ms[i]) != MutationId(ms[j])
  }

  predicate DistinctQueue(q: Queue) {
    forall i, j | 0 <= i < j < |q| ::
      (q[i].1.FolderMutation? <==> q[j].1.FolderMutation?) ==> MutationId(q[i].1) != MutationId(q[j].1)
  }

  /** A folder mutation on the committed row. */
  function FolderAlone(base: Db, c: Caller, m: Mutation<FolderBody>): Result<CellOutcome<FolderBody>, NotesError> {
    ApplyToCell(At(base.folders, m.id), At(base.folders, m.id), c, m, RejectFolder(m), StorableFolder(m.body), FolderNotFound)
  }

  /** A note mutation on the committed row, its folder dropped unless owned. */
  function NoteAlone(base: Db, owned: set<Uuid>, c: Caller, m0: Mutation<NoteBody>): Result<CellOutcome<NoteBody>, NotesError> {
    var m := Unfile(m0, owned);
    ApplyToCell(At(base.notes, m.id), At(base.notes, m.id), c, m, RejectNote(m), StorableNote(base, m.body), NoteNotFound)
  }

  predicate AloneOk(base: Db, owned: set<Uuid>, c: Caller, m: SyncMutation) {
    match m
    case FolderMutation(fm) => FolderAlone(base, c, fm).Ok?
    case NoteMutation(nm) => NoteAlone(base, owned, c, nm).Ok?
  }

  /** The answer and the final row of a mutation are those of the mutation alone. */
  ghost predicate AsAlone(base: Db, owned: set<Uuid>, c: Caller, m: SyncMutation, db: Db, r: MutationResult) {
    match m
    case FolderMutation(fm) =>
      var out := FolderAlone(base, c, fm);
      out.Ok? && r == FolderResult(out.value.result) && At(db.folders, fm.id) == out.value.cell
    case NoteMutation(nm) =>
      var out := NoteAlone(base, owned, c, nm);
      out.Ok? && r == NoteResult(out.value.result) && At(db.notes, nm.id) == out.value.cell
  }

  /** Rows no mutation names are untouched. */
  ghost predicate OthersKept(base: Db, q: Queue, db: Db) {
    && (forall id | (forall x | x in q :: x.1.NoteMutation? ==> MutationId(x.1) != id) :: At(db.notes, id) == At(base.notes, id))
    && (forall id | (forall x | x in q :: x.1.FolderMutation? ==> MutationId(x.1) != id) :: At(db.folders, id) == At(base.folders, id))
  }

  ghost predicate Apart(base: Db, owned: set<Uuid>, c: Caller, q: Queue, r: Result<Progress, NotesError>) {
    && (r.Ok? <==> forall x | x in q :: AloneOk(base, owned, c, x.1))
    && (r.Ok? ==>
          && |r.value.results| == |q|
          && (forall i | 0 <= i < |q| :: AsAlone(base, owned, c, q[i].1, r.value.db, r.value.results[i].1))
          && OthersKept(base, q, r.value.db))
  }

  lemma LastIsAlone(base: Db, owned: set<Uuid>, c: Caller, p: Progress, item: (nat, SyncMutation))
    requires OwnedExist(base, owned) && base.folders.Keys <= p.db.folders.Keys
    requires item.1.FolderMutation? ==> At(p.db.folders, MutationId(item.1)) == At(base.folders, MutationId(item.1))
    requires item.1.NoteMutation? ==> At(p.db.notes, MutationId(item.1)) == At(base.notes, MutationId(item.1))
    ensures var r := ApplyOne(base, owned, c, p, item);
            && (r.Ok? <==> AloneOk(base, owned, c, item.1))
            && (r.Ok? ==>
                  && |r.value.results| == |p.results| + 1 && r.value.results[..|p.results|] == p.results
                  && AsAlone(base, owned, c, item.1, r.value.db, r.value.results[|p.results|].1)
                  && (item.1.FolderMutation? ==> r.value.db.notes == p.db.notes)
                  && (item.1.NoteMutation? ==> r.value.db.folders == p.db.folders)
                  && (forall id | id != MutationId(item.1) :: At(r.value.db.notes, id) == At(p.db.notes, id)
                                                              && At(r.value.db.folders, id) == At(p.db.folders, id)))
  {
    hide ApplyToCell, RejectNote, RejectFolder, StorableNote, Unfile;
    match item.1 {
      case FolderMutation(m) =>
        RowsStay(At(base.folders, m.id), At(base.folders, m.id), c, m, RejectFolder(m), StorableFolder(m.body), FolderNotFound);
      case NoteMutation(m0) =>
        var m := Unfile(m0, owned);
        UnfiledIsStorable(base, owned, p.db, m0);
        UnfiledKeepsId(m0, owned);
        RowsStay(At(base.notes, m.id), At(base.notes, m.id), c, m, RejectNote(m), StorableNote(base, m.body), NoteNotFound);
    }
  }

  lemma RowsStay<B>(committed: Cell<B>, tx: Cell<B>, c: Caller, m: Mutation<B>, reject: Option<string>,
                    storable: bool, notFound: NotesError)
    ensures var out := ApplyToCell(committed, tx, c, m, reject, storable, notFound); out.Ok? && tx.Some? ==> out.value.cell.Some?
  {
  }

  lemma UnfiledKeepsId(m: Mutation<NoteBody>, owned: set<Uuid>)
    ensures Unfile(m, owned).id == m.id
  {
  }

  lemma EmptyIsApart(base: Db, owned: set<Uuid>, c: Caller)
    ensures Apart(base, owned, c, [], Run(base, owned, c, []))
  {
  }

  lemma {:induction false} DistinctRunsApart(base: Db, owned: set<Uuid>, c: Caller, q: Queue)
    requires DistinctQueue(q) && OwnedExist(base, owned)
    ensures Apart(base, owned, c, q, Run(base, owned, c, q))
  {
    hide ApplyOne, FolderAlone, NoteAlone, AsAlone, OthersKept, Run;
    if q == [] {
      EmptyIsApart(base, owned, c);
    } else {
      var front, last := q[..|q| - 1], q[|q| - 1];
      assert q == front + [last];
      DistinctRunsApart(base, owned, c, front);
      RunLast(base, owned, c, front, last);
      var before := Run(base, owned, c, front);
      if before.Ok? {
        RunKeepsFolders(base, owned, c, front);
        assert forall i | 0 <= i < |front| :: front[i] == q[i];
        NotNamedBefore(base, front, last, before.value.db);
        LastIsAlone(base, owned, c, before.value, last);
        var after := Run(base, owned, c, q);
        if after.Ok? {
          ApartStep(base, owned, c, front, last, before.value, after.value);
        }
      }
    }
  }

  lemma NotNamedBefore(base: Db, front: Queue, last: (nat, SyncMutation), db: Db)
    requires OthersKept(base, front, db)
    requires forall x | x in front :: (x.1.FolderMutation? <==> last.1.FolderMutation?) ==> MutationId(x.1) != MutationId(last.1)
    ensures last.1.FolderMutation? ==> At(db.folders, MutationId(last.1)) == At(base.folders, MutationId(last.1))
    ensures last.1.NoteMutation? ==> At(db.notes, MutationId(last.1)) == At(base.notes, MutationId(last.1))
  {
  }

  lemma ApartStep(base: Db, owned: set<Uuid>, c: Caller, front: Queue, last: (nat, SyncMutation), p: Progress, p': Progress)
    requires Apart(base, owned, c, front, Ok(p))
    requires forall x | x in front :: (x.1.FolderMutation? <==> last.1.FolderMutation?) ==> MutationId(x.1) != MutationId(last.1)
    requires |p'.results| == |p.results| + 1 && p'.results[..|p.results|] == p.results
    requires AsAlone(base, owned, c, last.1, p'.db, p'.results[|p.results|].1)
    requires last.1.FolderMutation? ==> p'.db.notes == p.db.notes
    requires last.1.NoteMutation? ==> p'.db.folders == p.db.folders
    requires forall id | id != MutationId(last.1) :: At(p'.db.notes, id) == At(p.db.notes, id) && At(p'.db.folders, id) == At(p.db.folders, id)
    ensures forall i | 0 <= i < |front + [last]| :: AsAlone(base, owned, c, (front + [last])[i].1, p'.db, p'.results[i].1)
    ensures OthersKept(base, front + [last], p'.db)
  {
    hide FolderAlone, NoteAlone;
    var q := front + [last];
    forall i | 0 <= i < |q|
      ensures AsAlone(base, owned, c, q[i].1, p'.db, p'.results[i].1)
    {
      if i < |front| {
        assert front[i] in front;
        assert AsAlone(base, owned, c, front[i].1, p.db, p.results[i].1);
        assert p'.results[..|p.results|][i] == p'.results[i];
      }
    }
    assert last in q && forall x | x in front :: x in q;
    forall id | forall x | x in q :: x.1.NoteMutation? ==> MutationId(x.1) != id
      ensures At(p'.db.notes, id) == At(base.notes, id)
    {
      assert At(p.db.notes, id) == At(base.notes, id);
    }
    forall id | forall x | x in q :: x.1.FolderMutation? ==> MutationId(x.1) != id
      ensures At(p'.db.folders, id) == At(base.folders, id)
    {
      assert At(p.db.folders, id) == At(base.folders, id);
    }
  }

  function OwnedIn(db: Db, c: Caller, ms: seq<SyncMutation>): set<Uuid> {
    OwnedFolderIds(db, c.user, Referenced(ms))
  }

  /** In a push with distinct ids every mutation gets the answer, and its row the value, it would get alone. */
  lemma PushIsApart(db: Db, c: Caller, ms: seq<SyncMutation>)
    requires |ms| <= MAX_MUTATIONS_PER_PUSH && DistinctIds(ms)
    ensures Push(db, c, ms).Ok? <==> forall i | 0 <= i < |ms| :: AloneOk(db, OwnedIn(db, c, ms), c, ms[i])
    ensures Push(db, c, ms).Ok? ==>
              var p := Push(db, c, ms).value;
              && |p.results| == |ms|
              && (forall i | 0 <= i < |ms| :: AsAlone(db, OwnedIn(db, c, ms), c, ms[i], p.db, p.results[i]))
              && OthersKept(db, Tagged(ms), p.db)
  {
    hide Push, Run, FolderAlone, NoteAlone, OwnedFolderIds, Referenced;
    var q := Tagged(ms);
    ReorderingIsInvisible(db, c, ms);
    OwnedFoldersExist(db, c.user, Referenced(ms));
    DistinctRunsApart(db, OwnedIn(db, c, ms), c, q);
    assert forall x | x in q :: x.1 == ms[x.0];
    assert forall i | 0 <= i < |ms| :: q[i] in q;
  }

  // ---- conflicts ----

  lemma NoteConflict(db: Db, owned: set<Uuid>, c: Caller, m: Mutation<NoteBody>)
    requires m.baseVersion.Some? && NoteAlone(db, owned, c, m).Ok?
    requires NoteAlone(db, owned, c, m).value.result.outcome == Conflict
    ensures var out := NoteAlone(db, owned, c, m).value;
            && Live(At(db.notes, m.id), c.user) && out.cell == At(db.notes, m.id)
            && out.result.entity == Some(ToDto(m.id, db.notes[m.id]))
            && db.notes[m.id].version != m.baseVersion.value
            && RejectNote(Unfile(m, owned)).None?
  {
  }

  lemma MatchingBaseIsApplied(db: Db, owned: set<Uuid>, c: Caller, m: Mutation<NoteBody>)
    requires OwnedExist(db, owned) && Live(At(db.notes, m.id), c.user)
    requires m.baseVersion == Some(db.notes[m.id].version) && db.notes[m.id].version != I32_MAX
    requires |m.body.title| <= MAX_TITLE && |m.body.content| <= MAX_CONTENT
    ensures NoteAlone(db, owned, c, m).Ok? && NoteAlone(db, owned, c, m).value.result.outcome == Applied
  {
  }

  lemma SingleIsAlone(db: Db, c: Caller, m: Mutation<NoteBody>)
    requires NoteAlone(db, OwnedIn(db, c, [NoteMutation(m)]), c, m).Ok?
    ensures var r := Push(db, c, [NoteMutation(m)]);
            && r.Ok? && |r.value.results| == 1
            && r.value.results[0] == NoteResult(NoteAlone(db, OwnedIn(db, c, [NoteMutation(m)]), c, m).value.result)
  {
    hide Push, NoteAlone, OwnedIn;
    var ms := [NoteMutation(m)];
    PushIsApart(db, c, ms);
    assert AloneOk(db, OwnedIn(db, c, ms), c, ms[0]);
    assert AsAlone(db, OwnedIn(db, c, ms), c, ms[0], Push(db, c, ms).value.db, Push(db, c, ms).value.results[0]);
  }

  /**
    A base-version conflict reports a version other than the base and leaves the row as it was; pushing the mutation again,
    alone, with the reported version is applied (short of a full version column).
   */
  lemma ConflictCanBeRetried(db: Db, c: Caller, ms: seq<SyncMutation>, p: Pushed, i: nat, m: Mutation<NoteBody>, c': Caller)
    requires |ms| <= MAX_MUTATIONS_PER_PUSH && DistinctIds(ms) && Push(db, c, ms) == Ok(p)
    requires i < |ms| && ms[i] == NoteMutation(m) && m.baseVersion.Some? && c'.user == c.user
    requires i < |p.results| && p.results[i].NoteResult? && p.results[i].note.outcome == Conflict
    ensures Live(At(db.notes, m.id), c.user) && At(p.db.notes, m.id) == At(db.notes, m.id)
    ensures p.results[i].note.entity == Some(ToDto(m.id, db.notes[m.id])) && db.notes[m.id].version != m.baseVersion.value
    ensures db.notes[m.id].version != I32_MAX ==>
              var again := Push(p.db, c', [NoteMutation(m.(baseVersion := Some(db.notes[m.id].version)))]);
              && again.Ok? && |again.value.results| == 1
              && again.value.results[0].NoteResult? && again.value.results[0].note.outcome == Applied
  {
    hide Push, NoteAlone, OwnedFolderIds, Referenced, OthersKept;
    PushIsApart(db, c, ms);
    assert AsAlone(db, OwnedIn(db, c, ms), c, ms[i], p.db, p.results[i]);
    NoteConflict(db, OwnedIn(db, c, ms), c, m);
    if db.notes[m.id].version != I32_MAX {
      var again := m.(baseVersion := Some(db.notes[m.id].version));
      OwnedFoldersExist(p.db, c'.user, Referenced([NoteMutation(again)]));
      MatchingBaseIsApplied(p.db, OwnedIn(p.db, c', [NoteMutation(again)]), c', again);
      SingleIsAlone(p.db, c', again);
    }
  }

  /**
    With the same id twice in a batch the report misleads: the second mutation conflicts, yet is shown its own base version,
    because the lookup reads the row as it was before the batch.
   */
  lemma RepeatedIdIsShownItsOwnBase(db: Db, c: Caller, m: Mutation<NoteBody>, m': Mutation<NoteBody>)
    requires Live(At(db.notes, m.id), c.user) && m'.id == m.id
    requires db.notes[m.id].version < I32_MAX && m.baseVersion == m'.baseVersion == Some(db.notes[m.id].version)
    requires RejectNote(m).None? && RejectNote(m').None? && m.body.folderId.None? && m'.body.folderId.None?
    ensures var r := Push(db, c, [NoteMutation(m), NoteMutation(m')]);
            && r.Ok? && |r.value.results| == 2
            && r.value.results[1].NoteResult? && r.value.results[1].note.outcome == Conflict
            && r.value.results[1].note.entity.Some?
            && Some(r.value.results[1].note.entity.value.version) == m'.baseVersion
  {
    hide Push, OwnedFolderIds, Referenced;
    var ms := [NoteMutation(m), NoteMutation(m')];
    var owned := OwnedIn(db, c, ms);
    ReorderingIsInvisible(db, c, ms);
    var q := Tagged(ms);
    assert q == [] + [(0, ms[0])] + [(1, ms[1])];
    assert Run(db, owned, c, []) == Ok(Progress(db, [], []));
    RunLast(db, owned, c, [], (0, ms[0]));
    RunLast(db, owned, c, [] + [(0, ms[0])], (1, ms[1]));
  }
}
