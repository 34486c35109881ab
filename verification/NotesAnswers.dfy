/** What the answer to each mutation of a push says, and what the mutation did to its row, field by field. */
module NotesAnswers {
  import opened Wrappers
  import opened Types
  import opened NotesModel
  import opened NotesPush
  import opened NotesBatch
  import opened NotesOutcomes
  import opened NotesEffects

  predicate IsLive<B>(cell: Cell<B>, user: Uuid) {
    cell.Some? && cell.value.creatorId == user && cell.value.deletedAt.None?
  }

  /** The row after a write of the snapshot: a first version, or one more version of the row that was there. */
  ghost predicate Snapshot<B>(before: Cell<B>, row: Row<B>, c: Caller, deleted: bool) {
    && row.creatorId == c.user && row.updatedAt == c.now
    && if before.None? then row.version == 1 && row.createdAt == c.now && row.deletedAt == None && !deleted
       else
         && row.creatorId == before.value.creatorId && row.version == before.value.version + 1
         && row.createdAt == before.value.createdAt
         && row.deletedAt == if !deleted then None else if before.value.deletedAt.Some? then before.value.deletedAt else Some(c.now)
  }

  /** Is the mutation carried out on the row the batch finds? */
  ghost predicate Accepted<B>(committed: Cell<B>, before: Cell<B>, c: Caller, m: Mutation<B>) {
    if m.baseVersion.Some? then before.Some? && before.value.creatorId == c.user && before.value.version == m.baseVersion.value
    else m.deleted || before.None? || (committed.Some? && m.clientUpdatedAt > committed.value.updatedAt)
  }

  /**
    The answer of one mutation of a push that went through: `committed` is the row before the batch, `before` and `after` the row
    around the mutation, `tooLong` whether the text exceeds a limit.
   */
  ghost predicate Answers<B>(committed: Cell<B>, before: Cell<B>, after: Cell<B>, c: Caller, m: Mutation<B>, tooLong: bool, r: RowResult<B>) {
    && r.id == m.id
    && (tooLong ==> r.outcome == Rejected && r.entity.None? && r.reason.Some? && after == before)
    && (!tooLong ==>
          && r.reason.None?
          && r.outcome == (if Accepted(committed, before, c, m) then Applied else Conflict)
          && (r.outcome == Conflict ==>
                && after == before && IsLive(committed, c.user)
                && r.entity.Some? && Shows(r.entity.value, m.id, committed.value))
          && (r.outcome == Applied ==>
                if m.baseVersion.None? && m.deleted then r.entity.None? && after == before
                else
                  && after.Some? && Snapshot(before, after.value, c, m.deleted)
                  && r.entity.Some? && Shows(r.entity.value, m.id, after.value)))
  }

  /** Besides, a written row has the body of the mutation. */
  ghost predicate Stores<B>(before: Cell<B>, after: Cell<B>, body: B) {
    after == before || (after.Some? && after.value.body == body)
  }

  lemma CellAnswers<B>(committed: Cell<B>, before: Cell<B>, c: Caller, m: Mutation<B>, reject: Option<string>, storable: bool,
                       notFound: NotesError)
    requires ApplyToCell(committed, before, c, m, reject, storable, notFound).Ok?
    ensures var out := ApplyToCell(committed, before, c, m, reject, storable, notFound).value;
            && Answers(committed, before, out.cell, c, m, reject.Some?, out.result)
            && out.result.reason == reject
            && Stores(before, out.cell, m.body)
  {
  }

  predicate NoteTooLong(b: NoteBody) {
    |b.title| > 100 || |b.content| > 10_000
  }

  /** The stored note is the one sent, in the folder sent if the caller owned that folder before the batch, else in none. */
  ghost predicate StoresNote(db: Db, before: Cell<NoteBody>, after: Cell<NoteBody>, c: Caller, body: NoteBody) {
    after == before
    || (after.Some?
        && var b := after.value.body;
           && b.title == body.title && b.content == body.content && b.pinned == body.pinned
           && b.folderId == if body.folderId.Some? && body.folderId.value in db.folders
                               && db.folders[body.folderId.value].creatorId == c.user then body.folderId else None)
  }

  ghost predicate StoresFolder(before: Cell<FolderBody>, after: Cell<FolderBody>, body: FolderBody) {
    after == before || (after.Some? && after.value.body.title == body.title && after.value.body.pinned == body.pinned)
  }

  lemma UnfiledAnswers(committed: Cell<NoteBody>, before: Cell<NoteBody>, after: Cell<NoteBody>, c: Caller, m: Mutation<NoteBody>,
                       owned: set<Uuid>, tooLong: bool, r: RowResult<NoteBody>)
    requires Answers(committed, before, after, c, Unfile(m, owned), tooLong, r)
    ensures Answers(committed, before, after, c, m, tooLong, r)
  {
  }

  lemma UnfiledStores(db: Db, ms: seq<SyncMutation>, before: Cell<NoteBody>, after: Cell<NoteBody>, c: Caller, m: Mutation<NoteBody>)
    requires Stores(before, after, Unfile(m, OwnedIn(db, c, ms)).body) && NoteMutation(m) in ms
    ensures StoresNote(db, before, after, c, m.body)
  {
    assert m.body.folderId.Some? ==> m.body.folderId.value in Referenced(ms);
  }

  lemma RejectNoteExactly(m: Mutation<NoteBody>, owned: set<Uuid>)
    ensures RejectNote(Unfile(m, owned)).Some? <==> NoteTooLong(m.body)
    ensures RejectNote(Unfile(m, owned)) ==
              if |m.body.title| > 100 then Some("title exceeds 100 characters")
              else if |m.body.content| > 10_000 then Some("content exceeds 10,000 characters") else None
  {
  }

  lemma StepAnswersNote(db: Db, ms: seq<SyncMutation>, c: Caller, p: Progress, item: (nat, SyncMutation))
    requires item.1.NoteMutation? && item.1 in ms && ApplyOne(db, OwnedIn(db, c, ms), c, p, item).Ok?
    ensures var next, m := ApplyOne(db, OwnedIn(db, c, ms), c, p, item).value, item.1.note;
            && |next.results| == |p.results| + 1 && next.results[|p.results|].1.NoteResult?
            && Answers(At(db.notes, m.id), At(p.db.notes, m.id), At(next.db.notes, m.id), c, m, NoteTooLong(m.body),
                       next.results[|p.results|].1.note)
            && StoresNote(db, At(p.db.notes, m.id), At(next.db.notes, m.id), c, m.body)
  {
    hide ApplyToCell, Answers, Stores, StoresNote, RejectNote, StorableNote, OwnedFolderIds, Referenced;
    var m, owned := item.1.note, OwnedIn(db, c, ms);
    var u := Unfile(m, owned);
    CellAnswers(At(db.notes, m.id), At(p.db.notes, m.id), c, u, RejectNote(u), StorableNote(p.db, u.body), NoteNotFound);
    CellStays(At(db.notes, m.id), At(p.db.notes, m.id), c, u, RejectNote(u), StorableNote(p.db, u.body), NoteNotFound);
    RejectNoteExactly(m, owned);
    var next := ApplyOne(db, owned, c, p, item).value;
    UnfiledAnswers(At(db.notes, m.id), At(p.db.notes, m.id), At(next.db.notes, m.id), c, m, owned, NoteTooLong(m.body),
                   next.results[|p.results|].1.note);
    UnfiledStores(db, ms, At(p.db.notes, m.id), At(next.db.notes, m.id), c, m);
  }

  lemma StepAnswersFolder(db: Db, ms: seq<SyncMutation>, c: Caller, p: Progress, item: (nat, SyncMutation))
    requires item.1.FolderMutation? && ApplyOne(db, OwnedIn(db, c, ms), c, p, item).Ok?
    ensures var next, m := ApplyOne(db, OwnedIn(db, c, ms), c, p, item).value, item.1.folder;
            && |next.results| == |p.results| + 1 && next.results[|p.results|].1.FolderResult?
            && Answers(At(db.folders, m.id), At(p.db.folders, m.id), At(next.db.folders, m.id), c, m, |m.body.title| > 100,
                       next.results[|p.results|].1.folder)
            && StoresFolder(At(p.db.folders, m.id), At(next.db.folders, m.id), m.body)
  {
    hide ApplyToCell, Answers;
    var m := item.1.folder;
    CellAnswers(At(db.folders, m.id), At(p.db.folders, m.id), c, m, RejectFolder(m), StorableFolder(m.body), FolderNotFound);
    CellStays(At(db.folders, m.id), At(p.db.folders, m.id), c, m, RejectFolder(m), StorableFolder(m.body), FolderNotFound);
  }

  lemma NextSoFar(db: Db, c: Caller, ms: seq<SyncMutation>, i: nat)
    requires i < |ms| && SoFar(db, c, ms, i).Ok?
    ensures SoFar(db, c, ms, i + 1) == ApplyOne(db, OwnedIn(db, c, ms), c, SoFar(db, c, ms, i).value, (i, ms[i]))
  {
    hide ApplyOne, Run;
    RunLast(db, OwnedIn(db, c, ms), c, Tagged(ms)[..i], Tagged(ms)[i]);
    assert Tagged(ms)[..i + 1] == Tagged(ms)[..i] + [Tagged(ms)[i]];
  }

  /** In any push that goes through, every note mutation is answered and stored so, on the row the ones before it left. */
  lemma PushAnswersNote(db: Db, c: Caller, ms: seq<SyncMutation>, p: Pushed, i: nat, m: Mutation<NoteBody>)
    requires Push(db, c, ms) == Ok(p) && i < |ms| && ms[i] == NoteMutation(m)
    ensures |p.results| == |ms| && p.results[i].NoteResult? && SoFar(db, c, ms, i).Ok? && SoFar(db, c, ms, i + 1).Ok?
    ensures var before, after := At(SoFar(db, c, ms, i).value.db.notes, m.id), At(SoFar(db, c, ms, i + 1).value.db.notes, m.id);
            && Answers(At(db.notes, m.id), before, after, c, m, NoteTooLong(m.body), p.results[i].note)
            && StoresNote(db, before, after, c, m.body)
  {
    hide Push, Run, ApplyOne, Answers, StoresNote, OwnedFolderIds, Referenced;
    PushResultOfStep(db, c, ms, p, i);
    NextSoFar(db, c, ms, i);
    SoFarCounts(db, c, ms, i);
    StepAnswersNote(db, ms, c, SoFar(db, c, ms, i).value, (i, ms[i]));
  }

  lemma PushAnswersFolder(db: Db, c: Caller, ms: seq<SyncMutation>, p: Pushed, i: nat, m: Mutation<FolderBody>)
    requires Push(db, c, ms) == Ok(p) && i < |ms| && ms[i] == FolderMutation(m)
    ensures |p.results| == |ms| && p.results[i].FolderResult? && SoFar(db, c, ms, i).Ok? && SoFar(db, c, ms, i + 1).Ok?
    ensures var before, after := At(SoFar(db, c, ms, i).value.db.folders, m.id), At(SoFar(db, c, ms, i + 1).value.db.folders, m.id);
            && Answers(At(db.folders, m.id), before, after, c, m, |m.body.title| > 100, p.results[i].folder)
            && StoresFolder(before, after, m.body)
  {
    hide Push, Run, ApplyOne, Answers, StoresFolder, OwnedFolderIds, Referenced;
    PushResultOfStep(db, c, ms, p, i);
    NextSoFar(db, c, ms, i);
    SoFarCounts(db, c, ms, i);
    StepAnswersFolder(db, ms, c, SoFar(db, c, ms, i).value, (i, ms[i]));
  }

  /** After the last mutation the rows are those of the push. */
  lemma SoFarEndsThere(db: Db, c: Caller, ms: seq<SyncMutation>, p: Pushed)
    requires Push(db, c, ms) == Ok(p)
    ensures SoFar(db, c, ms, 0) == Ok(Progress(db, [], []))
    ensures SoFar(db, c, ms, |ms|).Ok? && SoFar(db, c, ms, |ms|).value.db == p.db
  {
    BatchIsSmall(db, c, ms);
    ReorderingIsInvisible(db, c, ms);
    SoFarIsInOrder(db, c, ms);
  }

  /** With distinct ids the row around a mutation is the committed row before and the stored row after the push. */
  lemma BatchAnswersNote(db: Db, c: Caller, ms: seq<SyncMutation>, p: Pushed, i: nat, m: Mutation<NoteBody>)
    requires Push(db, c, ms) == Ok(p) && DistinctIds(ms) && i < |ms| && ms[i] == NoteMutation(m)
    ensures |p.results| == |ms| && p.results[i].NoteResult?
    ensures Answers(At(db.notes, m.id), At(db.notes, m.id), At(p.db.notes, m.id), c, m, NoteTooLong(m.body), p.results[i].note)
    ensures StoresNote(db, At(db.notes, m.id), At(p.db.notes, m.id), c, m.body)
    ensures p.results[i].note.reason ==
              if |m.body.title| > 100 then Some("title exceeds 100 characters")
              else if |m.body.content| > 10_000 then Some("content exceeds 10,000 characters") else None
  {
    hide Push, ApplyToCell, Answers, Stores, StoresNote, RejectNote, StorableNote, OwnedFolderIds, Referenced, OthersKept;
    BatchIsSmall(db, c, ms);
    PushIsApart(db, c, ms);
    assert AsAlone(db, OwnedIn(db, c, ms), c, ms[i], p.db, p.results[i]) && ms[i] in ms;
    var owned := OwnedIn(db, c, ms);
    var u := Unfile(m, owned);
    CellAnswers(At(db.notes, m.id), At(db.notes, m.id), c, u, RejectNote(u), StorableNote(db, u.body), NoteNotFound);
    RejectNoteExactly(m, owned);
    UnfiledAnswers(At(db.notes, m.id), At(db.notes, m.id), At(p.db.notes, m.id), c, m, owned, NoteTooLong(m.body), p.results[i].note);
    UnfiledStores(db, ms, At(db.notes, m.id), At(p.db.notes, m.id), c, m);
  }

  lemma BatchAnswersFolder(db: Db, c: Caller, ms: seq<SyncMutation>, p: Pushed, i: nat, m: Mutation<FolderBody>)
    requires Push(db, c, ms) == Ok(p) && DistinctIds(ms) && i < |ms| && ms[i] == FolderMutation(m)
    ensures |p.results| == |ms| && p.results[i].FolderResult?
    ensures Answers(At(db.folders, m.id), At(db.folders, m.id), At(p.db.folders, m.id), c, m, |m.body.title| > 100, p.results[i].folder)
    ensures StoresFolder(At(db.folders, m.id), At(p.db.folders, m.id), m.body)
    ensures p.results[i].folder.reason == if |m.body.title| > 100 then Some("title exceeds 100 characters") else None
  {
    hide Push, ApplyToCell, Answers, OwnedFolderIds, Referenced, OthersKept;
    BatchIsSmall(db, c, ms);
    PushIsApart(db, c, ms);
    assert AsAlone(db, OwnedIn(db, c, ms), c, ms[i], p.db, p.results[i]);
    CellAnswers(At(db.folders, m.id), At(db.folders, m.id), c, m, RejectFolder(m), StorableFolder(m.body), FolderNotFound);
  }

  /** The version a write is answered with is the one the next guarded edit of that note succeeds on. */
  lemma AnsweredVersionIsCurrent(db: Db, c: Caller, ms: seq<SyncMutation>, p: Pushed, i: nat, m: Mutation<NoteBody>, c': Caller,
                                 next: Mutation<NoteBody>)
    requires Push(db, c, ms) == Ok(p) && DistinctIds(ms) && i < |ms| && ms[i] == NoteMutation(m) && !m.deleted
    requires i < |p.results| && p.results[i].NoteResult? && p.results[i].note.outcome == Applied && p.results[i].note.entity.Some?
    requires next.id == m.id && next.baseVersion == Some(p.results[i].note.entity.value.version) && c'.user == c.user
    requires !NoteTooLong(next.body) && p.results[i].note.entity.value.version != 0x7fff_ffff
    ensures var r := Push(p.db, c', [NoteMutation(next)]);
            r.Ok? && |r.value.results| == 1 && r.value.results[0].NoteResult? && r.value.results[0].note.outcome == Applied
  {
    hide Push, OwnedFolderIds, Referenced, StoresNote;
    BatchAnswersNote(db, c, ms, p, i, m);
    var one := [NoteMutation(next)];
    BatchFailsExactly(p.db, c', one);
    assert !FailsOn(p.db, p.db, c'.user, one[0]);
    BatchAnswersNote(p.db, c', one, Push(p.db, c', one).value, 0, next);
  }
}
