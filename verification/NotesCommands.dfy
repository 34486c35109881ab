/** Every request that writes notes or folders, as one transaction on the committed database. */
module NotesCommands {
  import opened Wrappers
  import opened Types
  import opened NotesModel
  import opened NotesPush

  datatype Command =
    | CreateNote(id: Uuid, body: NoteBody)
    | UpdateNote(id: Uuid, base: int, title: Option<string>, content: Option<string>, pinned: Option<bool>,
                 folderId: Option<Uuid>)
    | DeleteNote(id: Uuid, base: int)
    | AddNoteToFolder(id: Uuid, folder: Uuid)
    | RemoveNoteFromFolder(id: Uuid, folder: Uuid)
    | MoveNotes(ids: seq<Uuid>, folderId: Option<Uuid>)
    | CreateFolder(id: Uuid, folderTitle: string, folderPinned: Option<bool>)
    | UpdateFolder(id: Uuid, base: int, title: Option<string>, pinned: Option<bool>)
    | DeleteFolder(id: Uuid, base: int)
    | SyncPush(mutations: seq<SyncMutation>)

  datatype Reply =
    | OneNote(note: Dto<NoteBody>)
    | OneFolder(folder: Dto<FolderBody>)
    | MovedNotes(notes: set<Dto<NoteBody>>)
    | PushResults(results: seq<MutationResult>)

  /** The database after the request, its answer, and the note rows it wrote. */
  datatype Done = Done(db: Db, reply: Result<Reply, NotesError>, writes: seq<NoteWrite>)

  function Failed(db: Db, e: NotesError): Done {
    Done(db, Err(e), [])
  }

  /** A guarded or unguarded update of a live row: what find_*_by_id reports when the guard did not match. */
  datatype Edit<+B> = Missing | Stale(current: Row<B>) | Broken | Wrote(row: Row<B>)

  function EditLive<B>(cell: Cell<B>, c: Caller, base: Option<int>, body: B, deletedAt: Option<Timestamp>, storable: bool): Edit<B> {
    if !Live(cell, c.user) then Missing
    else if base.Some? && cell.value.version != base.value then Stale(cell.value)
    else
      match Rewritten(cell.value, body, deletedAt, storable, c.now)
      case Err(_) => Broken
      case Ok(row) => Wrote(row)
  }

  function NoteDone(db: Db, id: Uuid, write: Write, e: Edit<NoteBody>): Done {
    match e
    case Missing => Failed(db, NoteNotFound)
    case Stale(row) => Failed(db, VersionConflict(NoteEntity(ToDto(id, row))))
    case Broken => Failed(db, Database)
    case Wrote(row) => Done(db.(notes := db.notes[id := row]), Ok(OneNote(ToDto(id, row))), [NoteWrite(id, write)])
  }

  function FolderDone(db: Db, id: Uuid, e: Edit<FolderBody>): Done {
    match e
    case Missing => Failed(db, FolderNotFound)
    case Stale(row) => Failed(db, VersionConflict(FolderEntity(ToDto(id, row))))
    case Broken => Failed(db, Database)
    case Wrote(row) => Done(db.(folders := db.folders[id := row]), Ok(OneFolder(ToDto(id, row))), [])
  }

  /** The body an edit of note `id` starts from; irrelevant where there is no such row. */
  function NoteBodyAt(db: Db, id: Uuid): NoteBody {
    if id in db.notes then db.notes[id].body else NoteBody("", "", false, None)
  }

  function FolderBodyAt(db: Db, id: Uuid): FolderBody {
    if id in db.folders then db.folders[id].body else FolderBody("", false)
  }

  function EditNote(db: Db, c: Caller, id: Uuid, base: Option<int>, body: NoteBody, deletedAt: Option<Timestamp>,
                    storable: bool): Done {
    NoteDone(db, id, if base.Some? then Guarded(base.value) else Unguarded,
             EditLive(At(db.notes, id), c, base, body, deletedAt, storable))
  }

  function EditFolder(db: Db, c: Caller, id: Uuid, base: int, body: FolderBody, deletedAt: Option<Timestamp>,
                      storable: bool): Done {
    FolderDone(db, id, EditLive(At(db.folders, id), c, Some(base), body, deletedAt, storable))
  }

  predicate Moves(db: Db, user: Uuid, ids: seq<Uuid>, id: Uuid) {
    id in ids && Live(At(db.notes, id), user)
  }

  function Moved(row: Row<NoteBody>, folderId: Option<Uuid>, now: Timestamp): Row<NoteBody> {
    row.(body := row.body.(folderId := folderId), version := row.version + 1, updatedAt := now)
  }

  function MoveWrites(db: Db, user: Uuid, ids: seq<Uuid>): (w: seq<NoteWrite>)
  {
    if ids == [] then []
    else
      var last := ids[|ids| - 1];
      MoveWrites(db, user, ids[..|ids| - 1])
      + (if last !in ids[..|ids| - 1] && Live(At(db.notes, last), user) then [NoteWrite(last, Unguarded)] else [])
  }

  function MoveNotesDone(db: Db, c: Caller, ids: seq<Uuid>, folderId: Option<Uuid>): Done {
    if ids == [] then Done(db, Ok(MovedNotes({})), [])
    else if |ids| > 200 then Failed(db, BadRequest("Cannot move more than 200 notes at once"))
    else if folderId.Some? && !Live(At(db.folders, folderId.value), c.user) then Failed(db, FolderNotFound)
    else if exists id | id in db.notes :: Moves(db, c.user, ids, id) && db.notes[id].version == I32_MAX then
      Failed(db, Database)
    else
      var notes := map id | id in db.notes ::
        if Moves(db, c.user, ids, id) then Moved(db.notes[id], folderId, c.now) else db.notes[id];
      Done(db.(notes := notes),
           Ok(MovedNotes(set id | id in db.notes && Moves(db, c.user, ids, id) :: ToDto(id, notes[id]))),
           MoveWrites(db, c.user, ids))
  }

  function Execute(db: Db, c: Caller, cmd: Command): Done {
    match cmd
    case CreateNote(id, body) =>
      if id in db.notes || !StorableNote(db, body) then Failed(db, Database)
      else
        var row := Inserted(c, body);
        Done(db.(notes := db.notes[id := row]), Ok(OneNote(ToDto(id, row))), [NoteWrite(id, Created)])
    case UpdateNote(id, base, title, content, pinned, folderId) =>
      var was := NoteBodyAt(db, id);
      var body := NoteBody(title.GetOr(was.title), content.GetOr(was.content), pinned.GetOr(was.pinned), folderId);
      EditNote(db, c, id, Some(base), body, None, StorableNote(db, body))
    case DeleteNote(id, base) => EditNote(db, c, id, Some(base), NoteBodyAt(db, id), Some(c.now), true)
    case AddNoteToFolder(id, folder) =>
      if !Live(At(db.notes, id), c.user) then Failed(db, NoteNotFound)
      else if !Live(At(db.folders, folder), c.user) then Failed(db, FolderNotFound)
      else if db.notes[id].body.folderId == Some(folder) then Done(db, Ok(OneNote(ToDto(id, db.notes[id]))), [])
      else EditNote(db, c, id, None, db.notes[id].body.(folderId := Some(folder)), None, true)
    case RemoveNoteFromFolder(id, folder) =>
      if NoteBodyAt(db, id).folderId != Some(folder) then Failed(db, NoteNotFound)
      else EditNote(db, c, id, None, NoteBodyAt(db, id).(folderId := None), None, true)
    case MoveNotes(ids, folderId) => MoveNotesDone(db, c, ids, folderId)
    case CreateFolder(id, title, pinned) =>
      // An absent `pinned` is inserted as NULL, which the column refuses.
      if id in db.folders || pinned.None? || !StorableFolder(FolderBody(title, false)) then Failed(db, Database)
      else
        var row := Inserted(c, FolderBody(title, pinned.value));
        Done(db.(folders := db.folders[id := row]), Ok(OneFolder(ToDto(id, row))), [])
    case UpdateFolder(id, base, title, pinned) =>
      var was := FolderBodyAt(db, id);
      var body := FolderBody(title.GetOr(was.title), pinned.GetOr(was.pinned));
      EditFolder(db, c, id, base, body, None, StorableFolder(body))
    case DeleteFolder(id, base) => EditFolder(db, c, id, base, FolderBodyAt(db, id), Some(c.now), true)
    case SyncPush(ms) =>
      match Push(db, c, ms)
      case Err(e) => Failed(db, e)
      case Ok(p) => Done(p.db, Ok(PushResults(p.results)), p.writes)
  }

  /** A folder can be created exactly on a free id, with a title that fits and with `pinned` given; else nothing changes. */
  lemma CreateFolderSucceedsExactly(db: Db, c: Caller, id: Uuid, title: string, pinned: Option<bool>)
    ensures var d := Execute(db, c, CreateFolder(id, title, pinned));
            && (d.reply.Ok? <==> pinned.Some? && id !in db.folders && |title| <= MAX_TITLE)
            && (d.reply.Err? ==> d.reply == Err(Database) && d.db == db)
  {
  }

  /** The same request fails without `pinned` and succeeds with it. */
  lemma FolderWithoutPinnedFails(c: Caller, id: Uuid, pinned: bool)
    ensures Execute(Db(map[], map[]), c, CreateFolder(id, "Ideas", None)).reply == Err(Database)
    ensures Execute(Db(map[], map[]), c, CreateFolder(id, "Ideas", Some(pinned))).reply.Ok?
  {
    CreateFolderSucceedsExactly(Db(map[], map[]), c, id, "Ideas", Some(pinned));
  }

  // ---- the retention purge ----

  /** Tombstones older than the cutoff. */
  function Purgeable<B>(table: Table<B>, cutoff: Timestamp): set<Uuid> {
    set id | id in table && table[id].deletedAt.Some? && table[id].deletedAt.value < cutoff
  }

  function Without<B>(table: Table<B>, gone: set<Uuid>): Table<B> {
    map id | id in table && id !in gone :: table[id]
  }

  /** The foreign key sets folder_id to NULL, and the update trigger stamps the note; its version stays. */
  function Orphaned(notes: Table<NoteBody>, gone: set<Uuid>, now: Timestamp): Table<NoteBody> {
    map id | id in notes ::
      if notes[id].body.folderId.Some? && notes[id].body.folderId.value in gone
      then notes[id].(body := notes[id].body.(folderId := None), updatedAt := now) else notes[id]
  }

  function PurgeNotes(db: Db, gone: set<Uuid>): Db {
    db.(notes := Without(db.notes, gone))
  }

  function PurgeFolders(db: Db, gone: set<Uuid>, now: Timestamp): Db {
    Db(Orphaned(db.notes, gone, now), Without(db.folders, gone))
  }
}
