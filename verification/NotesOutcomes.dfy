/** What decides the fate of a mutation and of its batch: when it fails, which folder it keeps, what a conflict shows. */
module NotesOutcomes {
  import opened Wrappers
  import opened Types
  import opened NotesModel
  import opened NotesPush
  import opened NotesBatch

  // ---- which mutations fail a batch ----

  /**
    The mutation is within the limits but meets a row it cannot resolve: an existing row that is not a live one of the caller
    (looked up as committed), or a row to overwrite whose version is the last.
   */
  predicate Fails<B>(committed: Cell<B>, tx: Cell<B>, user: Uuid, m: Mutation<B>, reject: Option<string>) {
    reject.None?
    && if m.baseVersion.None? then
         !m.deleted && tx.Some?
         && (!Live(committed, user)
             || (m.clientUpdatedAt > committed.value.updatedAt && (!Owned(tx, user) || tx.value.version == I32_MAX)))
       else if Owned(tx, user) && tx.value.version == m.baseVersion.value then tx.value.version == I32_MAX
       else !Live(committed, user)
  }

  lemma CellFailsExactly<B>(committed: Cell<B>, tx: Cell<B>, c: Caller, m: Mutation<B>, reject: Option<string>, storable: bool,
                            notFound: NotesError)
    requires reject.None? ==> storable
    ensures ApplyToCell(committed, tx, c, m, reject, storable, notFound).Err? <==> Fails(committed, tx, c.user, m, reject)
  {
  }

  /** `base` is the committed database, `db` what the batch has made of it so far. */
  predicate FailsOn(base: Db, db: Db, user: Uuid, m: SyncMutation) {
    match m
    case FolderMutation(f) => Fails(At(base.folders, f.id), At(db.folders, f.id), user, f, RejectFolder(f))
    case NoteMutation(n) => Fails(At(base.notes, n.id), At(db.notes, n.id), user, n, RejectNote(n))
  }

  lemma StepFailsExactly(base: Db, owned: set<Uuid>, c: Caller, p: Progress, item: (nat, SyncMutation))
    requires OwnedExist(base, owned) && base.folders.Keys <= p.db.folders.Keys
    ensures ApplyOne(base, owned, c, p, item).Err? <==> FailsOn(base, p.db, c.user, item.1)
  {
    hide ApplyToCell, Fails;
    match item.1 {
      case FolderMutation(f) =>
        CellFailsExactly(At(base.folders, f.id), At(p.db.folders, f.id), c, f, RejectFolder(f), StorableFolder(f.body), FolderNotFound);
      case NoteMutation(n) =>
        var m := Unfile(n, owned);
        UnfiledIsStorable(base, owned, p.db, n);
        CellFailsExactly(At(base.notes, n.id), At(p.db.notes, n.id), c, m, RejectNote(m), StorableNote(p.db, m.body), NoteNotFound);
        FolderDoesNotFail(base, p.db, c.user, n, m);
    }
  }

  lemma FolderDoesNotFail(base: Db, db: Db, user: Uuid, n: Mutation<NoteBody>, m: Mutation<NoteBody>)
    requires m == n.(body := n.body.(folderId := m.body.folderId))
    ensures Fails(At(base.notes, n.id), At(db.notes, n.id), user, m, RejectNote(m))
       <==> Fails(At(base.notes, n.id), At(db.notes, n.id), user, n, RejectNote(n))
  {
  }

  /** The queue runs up to position `i`, whose mutation then fails. */
  predicate FailsAt(base: Db, owned: set<Uuid>, c: Caller, q: Queue, i: nat)
    requires i < |q|
  {
    Run(base, owned, c, q[..i]).Ok? && FailsOn(base, Run(base, owned, c, q[..i]).value.db, c.user, q[i].1)
  }

  lemma LastFailsExactly(base: Db, owned: set<Uuid>, c: Caller, front: Queue, last: (nat, SyncMutation))
    requires OwnedExist(base, owned)
    ensures Run(base, owned, c, front + [last]).Err? <==> Run(base, owned, c, front).Err? || FailsAt(base, owned, c, front + [last], |front|)
  {
    RunLast(base, owned, c, front, last);
    hide ApplyOne, FailsOn, Run;
    assert (front + [last])[..|front|] == front;
    RunKeepsFolders(base, owned, c, front);
    if Run(base, owned, c, front).Ok? {
      StepFailsExactly(base, owned, c, Run(base, owned, c, front).value, last);
    }
  }

  /** Any queue fails exactly when some mutation fails on what the ones before it have made. */
  lemma {:induction false} RunFailsExactly(base: Db, owned: set<Uuid>, c: Caller, q: Queue)
    requires OwnedExist(base, owned)
    ensures Run(base, owned, c, q).Err? <==> exists i :: 0 <= i < |q| && FailsAt(base, owned, c, q, i)
  {
    hide ApplyOne, FailsAt;
    if q != [] {
      var front, last := q[..|q| - 1], q[|q| - 1];
      assert q == front + [last];
      RunFailsExactly(base, owned, c, front);
      LastFailsExactly(base, owned, c, front, last);
      hide Run;
      forall i | 0 <= i < |front|
        ensures FailsAt(base, owned, c, front, i) <==> FailsAt(base, owned, c, q, i)
      {
        SameFailure(base, owned, c, front, q, i);
      }
    }
  }

  lemma SameFailure(base: Db, owned: set<Uuid>, c: Caller, front: Queue, q: Queue, i: nat)
    requires i < |front| && front <= q
    ensures FailsAt(base, owned, c, front, i) <==> FailsAt(base, owned, c, q, i)
  {
    hide Run, FailsOn;
    assert front[..i] == q[..i];
  }

  /** What the first `i` mutations of a batch come to, in submission order. */
  function SoFar(db: Db, c: Caller, ms: seq<SyncMutation>, i: nat): Result<Progress, NotesError>
    requires i <= |ms|
  {
    Run(db, OwnedIn(db, c, ms), c, Tagged(ms)[..i])
  }

  lemma SoFarIsInOrder(db: Db, c: Caller, ms: seq<SyncMutation>)
    ensures SoFar(db, c, ms, |ms|) == InOrder(db, c, ms)
  {
    assert Tagged(ms)[..|ms|] == Tagged(ms);
  }

  /** A push fails exactly when one of its mutations fails on what those before it have made; nothing is kept then. */
  lemma PushFailsExactly(db: Db, c: Caller, ms: seq<SyncMutation>)
    requires |ms| <= MAX_MUTATIONS_PER_PUSH
    ensures Push(db, c, ms).Err? <==>
              exists i :: 0 <= i < |ms| && SoFar(db, c, ms, i).Ok? && FailsOn(db, SoFar(db, c, ms, i).value.db, c.user, ms[i])
  {
    hide Push, Run, FailsOn, OwnedFolderIds, Referenced;
    ReorderingIsInvisible(db, c, ms);
    OwnedFoldersExist(db, c.user, Referenced(ms));
    RunFailsExactly(db, OwnedIn(db, c, ms), c, Tagged(ms));
    SoFarIsInOrder(db, c, ms);
    assert forall i | 0 <= i < |ms| :: FailsAt(db, OwnedIn(db, c, ms), c, Tagged(ms), i) <==>
             SoFar(db, c, ms, i).Ok? && FailsOn(db, SoFar(db, c, ms, i).value.db, c.user, ms[i]);
  }

  lemma AloneFailsExactly(db: Db, owned: set<Uuid>, c: Caller, m: SyncMutation)
    requires OwnedExist(db, owned)
    ensures !AloneOk(db, owned, c, m) <==> FailsOn(db, db, c.user, m)
  {
    hide ApplyToCell, Fails;
    match m {
      case FolderMutation(f) =>
        CellFailsExactly(At(db.folders, f.id), At(db.folders, f.id), c, f, RejectFolder(f), StorableFolder(f.body), FolderNotFound);
      case NoteMutation(n) =>
        var u := Unfile(n, owned);
        UnfiledIsStorable(db, owned, db, n);
        CellFailsExactly(At(db.notes, n.id), At(db.notes, n.id), c, u, RejectNote(u), StorableNote(db, u.body), NoteNotFound);
        FolderDoesNotFail(db, db, c.user, n, u);
    }
  }

  /** With distinct ids the committed rows decide: the batch fails exactly when one of its mutations fails on them. */
  lemma BatchFailsExactly(db: Db, c: Caller, ms: seq<SyncMutation>)
    requires |ms| <= MAX_MUTATIONS_PER_PUSH && DistinctIds(ms)
    ensures Push(db, c, ms).Err? <==> exists i :: 0 <= i < |ms| && FailsOn(db, db, c.user, ms[i])
  {
    hide Push, AloneOk, FailsOn, OwnedFolderIds, Referenced, AsAlone, OthersKept;
    PushIsApart(db, c, ms);
    OwnedFoldersExist(db, c.user, Referenced(ms));
    forall i | 0 <= i < |ms|
      ensures !AloneOk(db, OwnedIn(db, c, ms), c, ms[i]) <==> FailsOn(db, db, c.user, ms[i])
    {
      AloneFailsExactly(db, OwnedIn(db, c, ms), c, ms[i]);
    }
  }

  /** An edit of a note the server does not have takes a perfectly good new note of the same batch down with it. */
  lemma StaleEditPoisonsBatch(c: Caller, good: Mutation<NoteBody>, stale: Mutation<NoteBody>)
    requires good.baseVersion.None? && !good.deleted && RejectNote(good).None?
    requires stale.baseVersion.Some? && RejectNote(stale).None? && stale.id != good.id
    ensures var empty := Db(map[], map[]);
            && Push(empty, c, [NoteMutation(good)]).Ok? && good.id in Push(empty, c, [NoteMutation(good)]).value.db.notes
            && Push(empty, c, [NoteMutation(good), NoteMutation(stale)]).Err?
  {
    hide Push, OwnedFolderIds, Referenced, OthersKept, FailsOn;
    var empty := Db(map[], map[]);
    var alone, both := [NoteMutation(good)], [NoteMutation(good), NoteMutation(stale)];
    FailsOnEmpty(c.user, good);
    FailsOnEmpty(c.user, stale);
    BatchFailsExactly(empty, c, alone);
    BatchFailsExactly(empty, c, both);
    assert FailsOn(empty, empty, c.user, both[1]);
    PushIsApart(empty, c, alone);
    var p := Push(empty, c, alone).value;
    assert AsAlone(empty, OwnedIn(empty, c, alone), c, alone[0], p.db, p.results[0]);
    InsertedAlone(empty, OwnedIn(empty, c, alone), c, good);
  }

  lemma FailsOnEmpty(user: Uuid, m: Mutation<NoteBody>)
    ensures FailsOn(Db(map[], map[]), Db(map[], map[]), user, NoteMutation(m)) <==> RejectNote(m).None? && m.baseVersion.Some?
  {
  }

  lemma InsertedAlone(db: Db, owned: set<Uuid>, c: Caller, m: Mutation<NoteBody>)
    requires m.id !in db.notes && m.baseVersion.None? && !m.deleted && NoteAlone(db, owned, c, m).Ok? && RejectNote(m).None?
    ensures NoteAlone(db, owned, c, m).value.cell == Some(Inserted(c, Unfile(m, owned).body))
  {
  }

  // ---- what the results say, position by position ----

  /** The answer at position `i` is the one its step gives on what the mutations before it have made. */
  lemma {:induction false} ResultOfStep(base: Db, owned: set<Uuid>, c: Caller, q: Queue, i: nat)
    requires Run(base, owned, c, q).Ok? && i < |q|
    ensures Run(base, owned, c, q[..i]).Ok?
    ensures var p := Run(base, owned, c, q[..i]).value;
            var step := ApplyOne(base, owned, c, p, q[i]);
            && step.Ok? && |step.value.results| == i + 1
            && step.value.results[i] == Run(base, owned, c, q).value.results[i]
  {
    hide ApplyOne;
    var front := q[..|q| - 1];
    StepAnswers(base, owned, c, Run(base, owned, c, front).value, q[|q| - 1]);
    if i < |q| - 1 {
      ResultOfStep(base, owned, c, front, i);
      assert front[..i] == q[..i];
    }
  }

  /** The same for a push, whatever order it works in. */
  lemma PushResultOfStep(db: Db, c: Caller, ms: seq<SyncMutation>, p: Pushed, i: nat)
    requires Push(db, c, ms) == Ok(p) && i < |ms|
    ensures |p.results| == |ms| && SoFar(db, c, ms, i).Ok?
    ensures var step := ApplyOne(db, OwnedIn(db, c, ms), c, SoFar(db, c, ms, i).value, (i, ms[i]));
            step.Ok? && |step.value.results| == i + 1 && step.value.results[i] == (i, p.results[i])
  {
    BatchIsSmall(db, c, ms);
    hide Push, Run, ApplyOne, OwnedFolderIds, Referenced;
    ReorderingIsInvisible(db, c, ms);
    ResultOfStep(db, OwnedIn(db, c, ms), c, Tagged(ms), i);
  }

  lemma BatchIsSmall(db: Db, c: Caller, ms: seq<SyncMutation>)
    requires Push(db, c, ms).Ok?
    ensures |ms| <= MAX_MUTATIONS_PER_PUSH
  {
    hide Run;
  }

  // ---- the folder a note keeps ----

  lemma StepFiles(base: Db, owned: set<Uuid>, c: Caller, p: Progress, item: (nat, SyncMutation))
    requires ApplyOne(base, owned, c, p, item).Ok? && item.1.NoteMutation?
    ensures var r := ApplyOne(base, owned, c, p, item).value.results;
            && |r| == |p.results| + 1 && r[|p.results|].1.NoteResult?
            && var note := r[|p.results|].1.note;
               note.outcome == Applied && note.entity.Some? ==> note.entity.value.body == Unfile(item.1.note, owned).body
  {
  }

  /** A written note keeps the folder it names exactly when the caller already owned that folder before the batch. */
  lemma FolderKeptExactly(db: Db, c: Caller, ms: seq<SyncMutation>, p: Pushed, i: nat, m: Mutation<NoteBody>)
    requires Push(db, c, ms) == Ok(p) && i < |ms| && ms[i] == NoteMutation(m)
    ensures |p.results| == |ms| && p.results[i].NoteResult?
    ensures var r := p.results[i].note;
            r.outcome == Applied && r.entity.Some? ==>
              (r.entity.value.body.folderId == m.body.folderId
               <==> m.body.folderId.None? || Owned(At(db.folders, m.body.folderId.value), c.user))
  {
    PushResultOfStep(db, c, ms, p, i);
    SoFarCounts(db, c, ms, i);
    hide Push, Run, ApplyOne;
    StepFiles(db, OwnedIn(db, c, ms), c, SoFar(db, c, ms, i).value, (i, ms[i]));
    assert ms[i] in ms;
    assert m.body.folderId.Some? ==> m.body.folderId.value in Referenced(ms);
  }

  /** A folder and a note in it, both new and pushed together: the folder is stored, the note is stored without it. */
  lemma FolderOfSameBatchIsDropped(c: Caller, f: Mutation<FolderBody>, m: Mutation<NoteBody>)
    requires f.baseVersion.None? && !f.deleted && RejectFolder(f).None?
    requires m.baseVersion.None? && !m.deleted && RejectNote(m).None? && m.body.folderId == Some(f.id)
    ensures var r := Push(Db(map[], map[]), c, [FolderMutation(f), NoteMutation(m)]);
            && r.Ok? && f.id in r.value.db.folders && r.value.db.folders[f.id].creatorId == c.user
            && m.id in r.value.db.notes && r.value.db.notes[m.id].body == m.body.(folderId := None)
  {
    hide Push, OthersKept;
    var empty, ms := Db(map[], map[]), [FolderMutation(f), NoteMutation(m)];
    BatchFailsExactly(empty, c, ms);
    PushIsApart(empty, c, ms);
    var p := Push(empty, c, ms).value;
    assert AsAlone(empty, OwnedIn(empty, c, ms), c, ms[0], p.db, p.results[0]);
    assert AsAlone(empty, OwnedIn(empty, c, ms), c, ms[1], p.db, p.results[1]);
    assert Unfile(m, OwnedIn(empty, c, ms)).body == m.body.(folderId := None);
  }

  // ---- what a conflict shows ----

  /** Would the mutation overwrite the committed row, were it the first of the batch to name it? */
  predicate Overwrites<B>(committed: Cell<B>, user: Uuid, m: Mutation<B>, reject: Option<string>) {
    reject.None? && Live(committed, user)
    && if m.baseVersion.None? then !m.deleted && m.clientUpdatedAt > committed.value.updatedAt
       else m.baseVersion.value == committed.value.version
  }

  /** A row of an open transaction: as committed, or rewritten and so at a later version. */
  ghost predicate Ahead<B>(committed: Cell<B>, tx: Cell<B>, user: Uuid, written: bool) {
    if written then Owned(tx, user) && committed.Some? && tx.value.version > committed.value.version else tx == committed
  }

  lemma CellMovesAhead<B>(committed: Cell<B>, tx: Cell<B>, c: Caller, m: Mutation<B>, reject: Option<string>, storable: bool,
                          notFound: NotesError, written: bool)
    requires Live(committed, c.user) && Ahead(committed, tx, c.user, written)
    requires ApplyToCell(committed, tx, c, m, reject, storable, notFound).Ok?
    ensures Ahead(committed, ApplyToCell(committed, tx, c, m, reject, storable, notFound).value.cell, c.user,
                  written || Overwrites(committed, c.user, m, reject))
  {
  }

  /** A conflict that shows the very version the mutation was based on. */
  predicate ShowsOwnBase<B>(m: Mutation<B>, r: RowResult<B>) {
    r.outcome == Conflict && r.entity.Some? && m.baseVersion == Some(r.entity.value.version)
  }

  lemma CellShowsOwnBase<B>(committed: Cell<B>, tx: Cell<B>, c: Caller, m: Mutation<B>, reject: Option<string>, storable: bool,
                            notFound: NotesError, written: bool)
    requires Live(committed, c.user) ==> Ahead(committed, tx, c.user, written)
    requires m.baseVersion.Some? && ApplyToCell(committed, tx, c, m, reject, storable, notFound).Ok?
    ensures ShowsOwnBase(m, ApplyToCell(committed, tx, c, m, reject, storable, notFound).value.result)
       <==> Overwrites(committed, c.user, m, reject) && written
  {
  }

  /** Does a mutation of the queue overwrite the committed note `id`? */
  predicate NoteOverwritten(db: Db, user: Uuid, q: Queue, id: Uuid) {
    exists x :: x in q && x.1.NoteMutation? && x.1.note.id == id && Overwrites(At(db.notes, id), user, x.1.note, RejectNote(x.1.note))
  }

  predicate FolderOverwritten(db: Db, user: Uuid, q: Queue, id: Uuid) {
    exists x :: x in q && x.1.FolderMutation? && x.1.folder.id == id
                && Overwrites(At(db.folders, id), user, x.1.folder, RejectFolder(x.1.folder))
  }

  /** Within a batch a live row is rewritten exactly when some mutation so far overwrites the committed one. */
  lemma {:induction false} RowsMoveAhead(base: Db, owned: set<Uuid>, c: Caller, q: Queue, id: Uuid)
    requires Run(base, owned, c, q).Ok?
    ensures var db := Run(base, owned, c, q).value.db;
            && (Live(At(base.notes, id), c.user) ==>
                  Ahead(At(base.notes, id), At(db.notes, id), c.user, NoteOverwritten(base, c.user, q, id)))
            && (Live(At(base.folders, id), c.user) ==>
                  Ahead(At(base.folders, id), At(db.folders, id), c.user, FolderOverwritten(base, c.user, q, id)))
  {
    hide ApplyToCell, Live, Ahead, Overwrites, RejectNote, RejectFolder, StorableNote;
    if q == [] {
      NothingAhead(At(base.notes, id), c.user);
      NothingAhead(At(base.folders, id), c.user);
    } else {
      var front, last := q[..|q| - 1], q[|q| - 1];
      assert q == front + [last];
      assert forall x :: x in q <==> x in front || x == last;
      RowsMoveAhead(base, owned, c, front, id);
      StepMovesAhead(base, owned, c, Run(base, owned, c, front).value, front, last, id);
    }
  }

  lemma NothingAhead<B>(cell: Cell<B>, user: Uuid)
    ensures Ahead(cell, cell, user, false)
  {
  }

  lemma OneMoreOverwrites(db: Db, user: Uuid, front: Queue, last: (nat, SyncMutation), id: Uuid)
    ensures NoteOverwritten(db, user, front + [last], id) <==>
              NoteOverwritten(db, user, front, id)
              || (last.1.NoteMutation? && last.1.note.id == id && Overwrites(At(db.notes, id), user, last.1.note, RejectNote(last.1.note)))
    ensures FolderOverwritten(db, user, front + [last], id) <==>
              FolderOverwritten(db, user, front, id)
              || (last.1.FolderMutation? && last.1.folder.id == id
                  && Overwrites(At(db.folders, id), user, last.1.folder, RejectFolder(last.1.folder)))
  {
    hide Overwrites;
    assert forall x :: x in front + [last] <==> x in front || x == last;
  }

  lemma UnfiledOverwrites(committed: Cell<NoteBody>, user: Uuid, m: Mutation<NoteBody>, owned: set<Uuid>)
    ensures Overwrites(committed, user, Unfile(m, owned), RejectNote(Unfile(m, owned))) <==> Overwrites(committed, user, m, RejectNote(m))
  {
  }

  lemma StepMovesAhead(base: Db, owned: set<Uuid>, c: Caller, p: Progress, front: Queue, last: (nat, SyncMutation), id: Uuid)
    requires Live(At(base.notes, id), c.user) ==> Ahead(At(base.notes, id), At(p.db.notes, id), c.user, NoteOverwritten(base, c.user, front, id))
    requires Live(At(base.folders, id), c.user) ==>
               Ahead(At(base.folders, id), At(p.db.folders, id), c.user, FolderOverwritten(base, c.user, front, id))
    requires ApplyOne(base, owned, c, p, last).Ok?
    ensures var db := ApplyOne(base, owned, c, p, last).value.db;
            && (Live(At(base.notes, id), c.user) ==>
                  Ahead(At(base.notes, id), At(db.notes, id), c.user, NoteOverwritten(base, c.user, front + [last], id)))
            && (Live(At(base.folders, id), c.user) ==>
                  Ahead(At(base.folders, id), At(db.folders, id), c.user, FolderOverwritten(base, c.user, front + [last], id)))
  {
    hide ApplyToCell, Live, Ahead, Overwrites, NoteOverwritten, FolderOverwritten, RejectNote, RejectFolder, StorableNote;
    OneMoreOverwrites(base, c.user, front, last, id);
    match last.1 {
      case FolderMutation(f) =>
        if f.id == id && Live(At(base.folders, id), c.user) {
          CellMovesAhead(At(base.folders, id), At(p.db.folders, id), c, f, RejectFolder(f), StorableFolder(f.body), FolderNotFound,
                         FolderOverwritten(base, c.user, front, id));
          CellStays(At(base.folders, id), At(p.db.folders, id), c, f, RejectFolder(f), StorableFolder(f.body), FolderNotFound);
        }
      case NoteMutation(n) =>
        var m := Unfile(n, owned);
        UnfiledOverwrites(At(base.notes, id), c.user, n, owned);
        if n.id == id && Live(At(base.notes, id), c.user) {
          CellMovesAhead(At(base.notes, id), At(p.db.notes, id), c, m, RejectNote(m), StorableNote(p.db, m.body), NoteNotFound,
                         NoteOverwritten(base, c.user, front, id));
          CellStays(At(base.notes, id), At(p.db.notes, id), c, m, RejectNote(m), StorableNote(p.db, m.body), NoteNotFound);
        }
    }
  }

  /** A cell never becomes empty, so putting it back gives it. */
  lemma CellStays<B>(committed: Cell<B>, tx: Cell<B>, c: Caller, m: Mutation<B>, reject: Option<string>, storable: bool,
                     notFound: NotesError)
    requires ApplyToCell(committed, tx, c, m, reject, storable, notFound).Ok?
    ensures tx.Some? ==> ApplyToCell(committed, tx, c, m, reject, storable, notFound).value.cell.Some?
  {
  }

  lemma StepShowsOwnBase(base: Db, owned: set<Uuid>, c: Caller, p: Progress, item: (nat, SyncMutation), m: Mutation<NoteBody>, written: bool)
    requires item.1 == NoteMutation(m) && m.baseVersion.Some? && ApplyOne(base, owned, c, p, item).Ok?
    requires Live(At(base.notes, m.id), c.user) ==> Ahead(At(base.notes, m.id), At(p.db.notes, m.id), c.user, written)
    ensures var r := ApplyOne(base, owned, c, p, item).value.results;
            && |r| == |p.results| + 1 && r[|p.results|].1.NoteResult?
            && (ShowsOwnBase(m, r[|p.results|].1.note)
                <==> Overwrites(At(base.notes, m.id), c.user, m, RejectNote(m)) && written)
  {
    hide ApplyToCell, Live, Ahead, Overwrites, RejectNote, StorableNote;
    var u := Unfile(m, owned);
    UnfiledOverwrites(At(base.notes, m.id), c.user, m, owned);
    CellShowsOwnBase(At(base.notes, m.id), At(p.db.notes, m.id), c, u, RejectNote(u), StorableNote(p.db, u.body), NoteNotFound, written);
  }

  lemma FolderStepShowsOwnBase(base: Db, owned: set<Uuid>, c: Caller, p: Progress, item: (nat, SyncMutation), m: Mutation<FolderBody>,
                               written: bool)
    requires item.1 == FolderMutation(m) && m.baseVersion.Some? && ApplyOne(base, owned, c, p, item).Ok?
    requires Live(At(base.folders, m.id), c.user) ==> Ahead(At(base.folders, m.id), At(p.db.folders, m.id), c.user, written)
    ensures var r := ApplyOne(base, owned, c, p, item).value.results;
            && |r| == |p.results| + 1 && r[|p.results|].1.FolderResult?
            && (ShowsOwnBase(m, r[|p.results|].1.folder)
                <==> Overwrites(At(base.folders, m.id), c.user, m, RejectFolder(m)) && written)
  {
    hide ApplyToCell, Live, Ahead, Overwrites, RejectFolder;
    CellShowsOwnBase(At(base.folders, m.id), At(p.db.folders, m.id), c, m, RejectFolder(m), StorableFolder(m.body), FolderNotFound, written);
  }

  /**
    In any batch, a note mutation with a base version is shown that very version as a conflict exactly when it would overwrite
    the committed row and an earlier mutation of the batch would too (and so, coming first, did).
   */
  lemma OwnBaseShownExactly(db: Db, c: Caller, ms: seq<SyncMutation>, p: Pushed, i: nat, m: Mutation<NoteBody>)
    requires Push(db, c, ms) == Ok(p) && i < |ms| && ms[i] == NoteMutation(m) && m.baseVersion.Some?
    ensures |p.results| == |ms| && p.results[i].NoteResult?
    ensures ShowsOwnBase(m, p.results[i].note) <==>
              && Overwrites(At(db.notes, m.id), c.user, m, RejectNote(m))
              && exists j :: 0 <= j < i && ms[j].NoteMutation? && ms[j].note.id == m.id
                             && Overwrites(At(db.notes, m.id), c.user, ms[j].note, RejectNote(ms[j].note))
  {
    hide Push, Run, ApplyOne, Live, Ahead, Overwrites, ShowsOwnBase, OwnedFolderIds, Referenced, RejectNote;
    var q := Tagged(ms)[..i];
    PushResultOfStep(db, c, ms, p, i);
    RowsMoveAhead(db, OwnedIn(db, c, ms), c, q, m.id);
    StepShowsOwnBase(db, OwnedIn(db, c, ms), c, SoFar(db, c, ms, i).value, (i, ms[i]), m, NoteOverwritten(db, c.user, q, m.id));
    SoFarCounts(db, c, ms, i);
    assert forall j | 0 <= j < i :: q[j] in q && q[j].1 == ms[j];
    assert forall x | x in q :: x.0 < i && x.1 == ms[x.0];
  }

  lemma SoFarCounts(db: Db, c: Caller, ms: seq<SyncMutation>, i: nat)
    requires i <= |ms| && SoFar(db, c, ms, i).Ok?
    ensures |SoFar(db, c, ms, i).value.results| == i
  {
    hide ApplyOne;
  }

  /** The same for folders. */
  lemma FolderOwnBaseShownExactly(db: Db, c: Caller, ms: seq<SyncMutation>, p: Pushed, i: nat, m: Mutation<FolderBody>)
    requires Push(db, c, ms) == Ok(p) && i < |ms| && ms[i] == FolderMutation(m) && m.baseVersion.Some?
    ensures |p.results| == |ms| && p.results[i].FolderResult?
    ensures ShowsOwnBase(m, p.results[i].folder) <==>
              && Overwrites(At(db.folders, m.id), c.user, m, RejectFolder(m))
              && exists j :: 0 <= j < i && ms[j].FolderMutation? && ms[j].folder.id == m.id
                             && Overwrites(At(db.folders, m.id), c.user, ms[j].folder, RejectFolder(ms[j].folder))
  {
    hide Push, Run, ApplyOne, Live, Ahead, Overwrites, ShowsOwnBase, OwnedFolderIds, Referenced, RejectFolder;
    var q := Tagged(ms)[..i];
    PushResultOfStep(db, c, ms, p, i);
    RowsMoveAhead(db, OwnedIn(db, c, ms), c, q, m.id);
    FolderStepShowsOwnBase(db, OwnedIn(db, c, ms), c, SoFar(db, c, ms, i).value, (i, ms[i]), m, FolderOverwritten(db, c.user, q, m.id));
    SoFarCounts(db, c, ms, i);
    assert forall j | 0 <= j < i :: q[j] in q && q[j].1 == ms[j];
    assert forall x | x in q :: x.0 < i && x.1 == ms[x.0];
  }
}
