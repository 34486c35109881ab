/**
  Whole histories: any users' requests and purge batches at strictly increasing times, interleaved with the pulls of one client.
 */
module NotesWorld {
  import opened Wrappers
  import opened Types
  import opened Cursors
  import opened Keyset
  import opened Pagination
  import opened NotesModel
  import opened NotesPush
  import opened NotesCommands
  import opened NotesPull
  import opened NotesReplica

  // ---- every request evolves both tables ----

  lemma CellEvolves<B>(t: Table<B>, t': Table<B>, committed: Cell<B>, c: Caller, m: Mutation<B>,
                       reject: Option<string>, storable: bool, notFound: NotesError)
    requires Evolves(t, t', c.now, None)
    requires ApplyToCell(committed, At(t', m.id), c, m, reject, storable, notFound).Ok?
    ensures Evolves(t, Put(t', m.id, ApplyToCell(committed, At(t', m.id), c, m, reject, storable, notFound).value.cell), c.now, None)
  {
  }

  lemma {:induction false} RunEvolves(base: Db, owned: set<Uuid>, c: Caller, q: Queue)
    requires Run(base, owned, c, q).Ok?
    ensures var db := Run(base, owned, c, q).value.db;
            Evolves(base.notes, db.notes, c.now, None) && Evolves(base.folders, db.folders, c.now, None)
  {
    hide ApplyToCell, Unfile, RejectNote, RejectFolder, StorableNote, StorableFolder;
    if q != [] {
      RunEvolves(base, owned, c, q[..|q| - 1]);
      var p := Run(base, owned, c, q[..|q| - 1]).value;
      match q[|q| - 1].1 {
        case FolderMutation(m) =>
          CellEvolves(base.folders, p.db.folders, At(base.folders, m.id), c, m, RejectFolder(m), StorableFolder(m.body), FolderNotFound);
        case NoteMutation(m0) =>
          var m := Unfile(m0, owned);
          CellEvolves(base.notes, p.db.notes, At(base.notes, m.id), c, m, RejectNote(m), StorableNote(p.db, m.body), NoteNotFound);
      }
    }
  }

  lemma PushEvolves(db: Db, c: Caller, ms: seq<SyncMutation>)
    requires Push(db, c, ms).Ok?
    ensures var db' := Push(db, c, ms).value.db;
            Evolves(db.notes, db'.notes, c.now, None) && Evolves(db.folders, db'.folders, c.now, None)
  {
    hide Run, FoldersFirst;
    if ms != [] {
      RunEvolves(db, OwnedFolderIds(db, c.user, Referenced(ms)), c, FoldersFirst(ms));
    }
  }

  ghost predicate BothEvolve(db: Db, db': Db, now: Timestamp) {
    Evolves(db.notes, db'.notes, now, None) && Evolves(db.folders, db'.folders, now, None)
  }

  lemma EditEvolves(db: Db, c: Caller, id: Uuid, base: Option<int>, body: NoteBody, deletedAt: Option<Timestamp>, storable: bool)
    requires deletedAt in {None, Some(c.now)}
    ensures BothEvolve(db, EditNote(db, c, id, base, body, deletedAt, storable).db, c.now)
  {
  }

  lemma EditFolderEvolves(db: Db, c: Caller, id: Uuid, base: int, body: FolderBody, deletedAt: Option<Timestamp>, storable: bool)
    requires deletedAt in {None, Some(c.now)}
    ensures BothEvolve(db, EditFolder(db, c, id, base, body, deletedAt, storable).db, c.now)
  {
  }

  lemma MoveEvolves(db: Db, c: Caller, ids: seq<Uuid>, folderId: Option<Uuid>)
    ensures BothEvolve(db, MoveNotesDone(db, c, ids, folderId).db, c.now)
  {
    hide MoveWrites;
  }

  lemma StandsStill(db: Db, now: Timestamp)
    ensures BothEvolve(db, db, now)
  {
  }

  lemma InsertEvolves(db: Db, c: Caller, id: Uuid)
    ensures forall body :: id !in db.notes ==> BothEvolve(db, db.(notes := db.notes[id := Inserted(c, body)]), c.now)
    ensures forall body :: id !in db.folders ==> BothEvolve(db, db.(folders := db.folders[id := Inserted(c, body)]), c.now)
  {
  }

  lemma ExecuteEvolves(db: Db, c: Caller, cmd: Command)
    ensures var db' := Execute(db, c, cmd).db;
            Evolves(db.notes, db'.notes, c.now, None) && Evolves(db.folders, db'.folders, c.now, None)
  {
    ExecuteEvolvesBoth(db, c, cmd);
  }

  lemma ExecuteEvolvesBoth(db: Db, c: Caller, cmd: Command)
    ensures BothEvolve(db, Execute(db, c, cmd).db, c.now)
  {
    hide Push, StorableNote, StorableFolder, EditNote, EditFolder, MoveNotesDone, BothEvolve;
    StandsStill(db, c.now);
    match cmd {
      case CreateNote(id, _) => InsertEvolves(db, c, id);
      case UpdateNote(id, base, title, content, pinned, folderId) =>
        var was := NoteBodyAt(db, id);
        var body := NoteBody(title.GetOr(was.title), content.GetOr(was.content), pinned.GetOr(was.pinned), folderId);
        EditEvolves(db, c, id, Some(base), body, None, StorableNote(db, body));
      case DeleteNote(id, base) => EditEvolves(db, c, id, Some(base), NoteBodyAt(db, id), Some(c.now), true);
      case AddNoteToFolder(id, folder) =>
        EditEvolves(db, c, id, None, NoteBodyAt(db, id).(folderId := Some(folder)), None, true);
      case RemoveNoteFromFolder(id, _) =>
        EditEvolves(db, c, id, None, NoteBodyAt(db, id).(folderId := None), None, true);
      case MoveNotes(ids, folderId) => MoveEvolves(db, c, ids, folderId);
      case CreateFolder(id, _, _) => InsertEvolves(db, c, id);
      case UpdateFolder(id, base, title, pinned) =>
        var was := FolderBodyAt(db, id);
        var body := FolderBody(title.GetOr(was.title), pinned.GetOr(was.pinned));
        EditFolderEvolves(db, c, id, base, body, None, StorableFolder(body));
      case DeleteFolder(id, base) => EditFolderEvolves(db, c, id, base, FolderBodyAt(db, id), Some(c.now), true);
      case SyncPush(ms) => PushEvolvesBoth(db, c, ms);
    }
  }

  lemma PushEvolvesBoth(db: Db, c: Caller, ms: seq<SyncMutation>)
    ensures Push(db, c, ms).Ok? ==> BothEvolve(db, Push(db, c, ms).value.db, c.now)
  {
    hide Push;
    if Push(db, c, ms).Ok? {
      PushEvolves(db, c, ms);
    }
  }

  lemma PurgesEvolve(db: Db, gone: set<Uuid>, cutoff: Timestamp, now: Timestamp)
    ensures gone <= Purgeable(db.notes, cutoff) ==>
              && Evolves(db.notes, PurgeNotes(db, gone).notes, now, Some(cutoff))
              && Evolves(db.folders, PurgeNotes(db, gone).folders, now, None)
    ensures gone <= Purgeable(db.folders, cutoff) ==>
              && Evolves(db.notes, PurgeFolders(db, gone, now).notes, now, None)
              && Evolves(db.folders, PurgeFolders(db, gone, now).folders, now, Some(cutoff))
  {
  }

  // ---- histories ----

  datatype Client = Client(notes: Copy<NoteBody>, notesCursor: Option<Cursor>, notesSyncedAt: Option<Timestamp>,
                           folders: Copy<FolderBody>, foldersCursor: Option<Cursor>, foldersSyncedAt: Option<Timestamp>)

  /** `clock` is the time of the last event, `purged` whether a purge ever ran. */
  datatype World = World(db: Db, clock: Timestamp, client: Client, purged: bool)

  datatype Event =
    | Request(now: Timestamp, actor: Uuid, cmd: Command)
    | Pull(now: Timestamp, limit: Option<int>)
    | PurgeNotesBatch(now: Timestamp, cutoff: Timestamp, gone: set<Uuid>)
    | PurgeFoldersBatch(now: Timestamp, cutoff: Timestamp, gone: set<Uuid>)

  /** The client applies both pages and keeps both cursors; a page without more marks the table as synced now. */
  function Pulled(w: World, user: Uuid, now: Timestamp, limit: Option<int>): Client {
    var cl := w.client;
    match SyncPull(w.db, user, cl.notesCursor, cl.foldersCursor, limit)
    case Err(_) => cl
    case Ok(r) =>
      Client(Merge(cl.notes, r.notes.rows), r.notes.nextCursor, if r.notes.hasMore then cl.notesSyncedAt else Some(now),
             Merge(cl.folders, r.folders.rows), r.folders.nextCursor, if r.folders.hasMore then cl.foldersSyncedAt else Some(now))
  }

  function Step(user: Uuid, w: World, e: Event): World {
    match e
    case Request(now, actor, cmd) => World(Execute(w.db, Caller(actor, now), cmd).db, now, w.client, w.purged)
    case Pull(now, limit) => World(w.db, now, Pulled(w, user, now, limit), w.purged)
    case PurgeNotesBatch(now, _, gone) => World(PurgeNotes(w.db, gone), now, w.client, true)
    case PurgeFoldersBatch(now, _, gone) => World(PurgeFolders(w.db, gone, now), now, w.client, true)
  }

  /** Time moves on, and a purge removes tombstones older than a cutoff the client was fully synced at or after. */
  predicate Allowed(w: World, e: Event) {
    && w.clock < e.now
    && (e.PurgeNotesBatch? ==>
          && e.gone <= Purgeable(w.db.notes, e.cutoff)
          && w.client.notesSyncedAt.Some? && e.cutoff <= w.client.notesSyncedAt.value)
    && (e.PurgeFoldersBatch? ==>
          && e.gone <= Purgeable(w.db.folders, e.cutoff)
          && w.client.foldersSyncedAt.Some? && e.cutoff <= w.client.foldersSyncedAt.value)
  }

  /** The worlds before, between and after the events. */
  function Replay(user: Uuid, w: World, events: seq<Event>): World {
    if events == [] then w else Step(user, Replay(user, w, events[..|events| - 1]), events[|events| - 1])
  }

  predicate AllowedRun(user: Uuid, w: World, events: seq<Event>) {
    events == []
    || (AllowedRun(user, w, events[..|events| - 1])
        && Allowed(Replay(user, w, events[..|events| - 1]), events[|events| - 1]))
  }

  /** A client that has never synced, against any server whose writes lie in the past. */
  ghost predicate Fresh(w: World) {
    && w.client == Client(map[], None, None, map[], None, None)
    && !w.purged
    && (forall id | id in w.db.notes :: w.db.notes[id].updatedAt <= w.clock)
    && (forall id | id in w.db.folders :: w.db.folders[id].updatedAt <= w.clock)
  }

  ghost predicate Sound(user: Uuid, w: World) {
    && Position(w.client.notesCursor).Ok? && Position(w.client.foldersCursor).Ok?
    && Good(w.db.notes, user, w.client.notes, CursorKey(w.client.notesCursor), w.client.notesSyncedAt, w.clock)
    && Good(w.db.folders, user, w.client.folders, CursorKey(w.client.foldersCursor), w.client.foldersSyncedAt, w.clock)
    && (!w.purged ==>
          && (forall id | id in w.client.notes :: Owned(At(w.db.notes, id), user))
          && (forall id | id in w.client.folders :: Owned(At(w.db.folders, id), user)))
  }

  lemma KeepsOwner<B>(t: Table<B>, t': Table<B>, now: Timestamp, user: Uuid, copy: Copy<B>)
    requires Evolves(t, t', now, None)
    requires forall id | id in copy :: Owned(At(t, id), user)
    ensures forall id | id in copy :: Owned(At(t', id), user)
  {
  }

  /** A transaction that evolves both tables, a purge of either included. */
  lemma ChangeKeepsSound(user: Uuid, w: World, db: Db, now: Timestamp, notesCutoff: Option<Timestamp>,
                         foldersCutoff: Option<Timestamp>, purged: bool)
    requires Sound(user, w) && w.clock < now
    requires Evolves(w.db.notes, db.notes, now, notesCutoff) && Evolves(w.db.folders, db.folders, now, foldersCutoff)
    requires notesCutoff.Some? ==> w.client.notesSyncedAt.Some? && notesCutoff.value <= w.client.notesSyncedAt.value
    requires foldersCutoff.Some? ==> w.client.foldersSyncedAt.Some? && foldersCutoff.value <= w.client.foldersSyncedAt.value
    requires !purged ==> !w.purged && notesCutoff.None? && foldersCutoff.None?
    ensures Sound(user, World(db, now, w.client, purged))
  {
    hide Good, Position, Evolves;
    var cl := w.client;
    EvolvingKeepsGood(w.db.notes, db.notes, user, cl.notes, CursorKey(cl.notesCursor), cl.notesSyncedAt, w.clock, now, notesCutoff);
    EvolvingKeepsGood(w.db.folders, db.folders, user, cl.folders, CursorKey(cl.foldersCursor), cl.foldersSyncedAt, w.clock, now,
                      foldersCutoff);
    if !purged {
      KeepsOwner(w.db.notes, db.notes, now, user, cl.notes);
      KeepsOwner(w.db.folders, db.folders, now, user, cl.folders);
    }
  }

  lemma PullKeepsSound(user: Uuid, w: World, now: Timestamp, limit: Option<int>)
    requires Sound(user, w) && w.clock < now
    ensures Sound(user, Step(user, w, Pull(now, limit)))
  {
    hide Execute, Good, Position, PullTable, Merge, Ahead, Owned, SyncLimit;
    var cl := w.client;
    PullingKeepsGood(w.db.notes, user, cl.notes, cl.notesCursor, cl.notesSyncedAt, w.clock, now, SyncLimit(limit));
    PullingKeepsGood(w.db.folders, user, cl.folders, cl.foldersCursor, cl.foldersSyncedAt, w.clock, now, SyncLimit(limit));
    PullAdvances(w.db.notes, user, cl.notesCursor, SyncLimit(limit));
    PullAdvances(w.db.folders, user, cl.foldersCursor, SyncLimit(limit));
  }

  lemma StepKeepsSound(user: Uuid, w: World, e: Event)
    requires Sound(user, w) && Allowed(w, e)
    ensures Sound(user, Step(user, w, e))
  {
    hide Execute, Sound, Evolves, PurgeNotes, PurgeFolders, Pulled;
    var db' := Step(user, w, e).db;
    match e {
      case Request(now, actor, cmd) =>
        ExecuteEvolves(w.db, Caller(actor, now), cmd);
        ChangeKeepsSound(user, w, db', now, None, None, w.purged);
      case Pull(now, limit) => PullKeepsSound(user, w, now, limit);
      case PurgeNotesBatch(now, cutoff, gone) =>
        PurgesEvolve(w.db, gone, cutoff, now);
        ChangeKeepsSound(user, w, db', now, Some(cutoff), None, true);
      case PurgeFoldersBatch(now, cutoff, gone) =>
        PurgesEvolve(w.db, gone, cutoff, now);
        ChangeKeepsSound(user, w, db', now, None, Some(cutoff), true);
    }
  }

  lemma FreshIsSound(user: Uuid, w: World)
    requires Fresh(w)
    ensures Sound(user, w)
  {
  }

  lemma {:induction false} RunsStaySound(user: Uuid, w: World, events: seq<Event>)
    requires Fresh(w) && AllowedRun(user, w, events)
    ensures Sound(user, Replay(user, w, events))
  {
    hide Step, Sound, Allowed;
    if events == [] {
      FreshIsSound(user, w);
    } else {
      RunsStaySound(user, w, events[..|events| - 1]);
      StepKeepsSound(user, Replay(user, w, events[..|events| - 1]), events[|events| - 1]);
    }
  }

  /**
    Replica convergence: after any history the client holds the current value of each of its rows up to its cursor,
    for notes and for folders.
   */
  lemma ReplicaIsCurrentUpToCursor(user: Uuid, w: World, events: seq<Event>, id: Uuid)
    requires Fresh(w) && AllowedRun(user, w, events)
    ensures var end := Replay(user, w, events);
            && Position(end.client.notesCursor).Ok? && Position(end.client.foldersCursor).Ok?
            && (id in end.db.notes && end.db.notes[id].creatorId == user
                && Passed(CursorKey(end.client.notesCursor), Key(end.db.notes[id].updatedAt, id)) ==>
                  id in end.client.notes && end.client.notes[id] == ToDto(id, end.db.notes[id]))
            && (id in end.db.folders && end.db.folders[id].creatorId == user
                && Passed(CursorKey(end.client.foldersCursor), Key(end.db.folders[id].updatedAt, id)) ==>
                  id in end.client.folders && end.client.folders[id] == ToDto(id, end.db.folders[id]))
  {
    RunsStaySound(user, w, events);
  }

  lemma ReplayLast(user: Uuid, w: World, events: seq<Event>, e: Event)
    ensures Replay(user, w, events + [e]) == Step(user, Replay(user, w, events), e)
    ensures AllowedRun(user, w, events + [e]) <==> AllowedRun(user, w, events) && Allowed(Replay(user, w, events), e)
  {
    hide Step, Allowed;
    assert (events + [e])[..|events|] == events;
  }

  /** After a pull that reports no more, and no later write, the copy equals the server's rows. */
  lemma CaughtUpReplicaEqualsServer(user: Uuid, w: World, events: seq<Event>, now: Timestamp, limit: Option<int>)
    requires Fresh(w) && AllowedRun(user, w, events + [Pull(now, limit)])
    ensures var before := Replay(user, w, events);
            var end := Replay(user, w, events + [Pull(now, limit)]);
            var r := SyncPull(before.db, user, before.client.notesCursor, before.client.foldersCursor, limit);
            && r.Ok? && end.db == before.db
            && (!r.value.notes.hasMore ==> MirrorsLive(end.db.notes, user, end.client.notes))
            && (!r.value.folders.hasMore ==> MirrorsLive(end.db.folders, user, end.client.folders))
            && (!r.value.notes.hasMore && !end.purged ==> Mirrors(end.db.notes, user, end.client.notes))
            && (!r.value.folders.hasMore && !end.purged ==> Mirrors(end.db.folders, user, end.client.folders))
  {
    hide Execute, Position, PullTable, Merge, Good, Replay, Mirrors, MirrorsLive;
    ReplayLast(user, w, events, Pull(now, limit));
    RunsStaySound(user, w, events);
    var b := Replay(user, w, events);
    var n := SyncLimit(limit);
    LastPageMirrors(b.db.notes, user, b.client.notes, b.client.notesCursor, b.client.notesSyncedAt, b.clock, n);
    LastPageMirrors(b.db.folders, user, b.client.folders, b.client.foldersCursor, b.client.foldersSyncedAt, b.clock, n);
  }

  /** Tombstone retention is safe: whatever purges ran, nothing is live on the client that is gone on the server. */
  lemma RetentionIsSafe(user: Uuid, w: World, events: seq<Event>, id: Uuid)
    requires Fresh(w) && AllowedRun(user, w, events)
    ensures var end := Replay(user, w, events);
            && (id in end.client.notes && !end.client.notes[id].deleted ==> Owned(At(end.db.notes, id), user))
            && (id in end.client.folders && !end.client.folders[id].deleted ==> Owned(At(end.db.folders, id), user))
  {
    hide Replay, AllowedRun, Position;
    RunsStaySound(user, w, events);
  }

  /** A purge within the client's horizon takes only rows the client already knows to be deleted. */
  lemma PurgeTakesKnownTombstones(user: Uuid, w: World, events: seq<Event>, e: Event, id: Uuid)
    requires Fresh(w) && AllowedRun(user, w, events + [e])
    ensures var before := Replay(user, w, events);
            && (e.PurgeNotesBatch? && id in e.gone && Owned(At(before.db.notes, id), user) ==>
                  id in before.client.notes && before.client.notes[id].deleted)
            && (e.PurgeFoldersBatch? && id in e.gone && Owned(At(before.db.folders, id), user) ==>
                  id in before.client.folders && before.client.folders[id].deleted)
  {
    hide Replay, AllowedRun, Position;
    ReplayLast(user, w, events, e);
    RunsStaySound(user, w, events);
  }
}
