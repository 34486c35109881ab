/** What each request does to the row it names, field by field, and what it leaves alone. */
module NotesEffects {
  import opened Wrappers
  import opened Types
  import opened NotesModel
  import opened NotesPush
  import opened NotesCommands

  /** The caller's live row of an id. */
  predicate HasLive<B>(table: Table<B>, user: Uuid, id: Uuid) {
    id in table && table[id].creatorId == user && table[id].deletedAt.None?
  }

  /** Everything but note `id` is as it was. */
  ghost predicate OnlyNote(db: Db, db': Db, id: Uuid) {
    && db'.folders == db.folders && db'.notes.Keys == db.notes.Keys + {id}
    && forall x | x in db.notes && x != id :: db'.notes[x] == db.notes[x]
  }

  ghost predicate OnlyFolder(db: Db, db': Db, id: Uuid) {
    && db'.notes == db.notes && db'.folders.Keys == db.folders.Keys + {id}
    && forall x | x in db.folders && x != id :: db'.folders[x] == db.folders[x]
  }

  /** The client is shown the row as it is. */
  ghost predicate Shows<B>(dto: Dto<B>, id: Uuid, row: Row<B>) {
    && dto.id == id && dto.version == row.version && dto.createdAt == row.createdAt && dto.updatedAt == row.updatedAt
    && (dto.deleted <==> row.deletedAt.Some?) && dto.body == row.body
  }

  /** What clients are sent of a row, in answers and on pages alike. */
  lemma DtoShows<B>(id: Uuid, row: Row<B>)
    ensures Shows(ToDto(id, row), id, row)
  {
  }

  /** One more write by its owner: the version goes up by one, the time is now, origin and creator stay. */
  ghost predicate Touched<B>(was: Row<B>, row: Row<B>, now: Timestamp) {
    && row.creatorId == was.creatorId && row.createdAt == was.createdAt
    && row.version == was.version + 1 && row.updatedAt == now
  }

  /** The reply shows the note's new row, and nothing else changed. */
  ghost predicate NoteWritten(db: Db, d: Done, id: Uuid) {
    && OnlyNote(db, d.db, id) && id in d.db.notes
    && d.reply.Ok? && d.reply.value.OneNote? && Shows(d.reply.value.note, id, d.db.notes[id])
  }

  ghost predicate FolderWritten(db: Db, d: Done, id: Uuid) {
    && OnlyFolder(db, d.db, id) && id in d.db.folders
    && d.reply.Ok? && d.reply.value.OneFolder? && Shows(d.reply.value.folder, id, d.db.folders[id])
  }

  /** A refused guarded edit: not found, or a conflict that shows the current row; nothing changes. */
  ghost predicate NoteRefused(db: Db, d: Done, user: Uuid, id: Uuid) {
    && d.db == db && d.reply.Err?
    && if HasLive(db.notes, user, id)
       then d.reply.error.VersionConflict? && d.reply.error.entity.NoteEntity? && Shows(d.reply.error.entity.note, id, db.notes[id])
       else d.reply.error == NoteNotFound
  }

  ghost predicate FolderRefused(db: Db, d: Done, user: Uuid, id: Uuid) {
    && d.db == db && d.reply.Err?
    && if HasLive(db.folders, user, id)
       then d.reply.error.VersionConflict? && d.reply.error.entity.FolderEntity? && Shows(d.reply.error.entity.folder, id, db.folders[id])
       else d.reply.error == FolderNotFound
  }

  ghost predicate Breaks(db: Db, d: Done) {
    d.db == db && d.reply == Err(Database)
  }

  // ---- notes ----

  lemma CreateNoteEffect(db: Db, c: Caller, id: Uuid, body: NoteBody)
    ensures var d := Execute(db, c, CreateNote(id, body));
            if id !in db.notes && |body.title| <= 100 && |body.content| <= 10_000
               && (body.folderId.Some? ==> body.folderId.value in db.folders)
            then NoteWritten(db, d, id) && d.db.notes[id] == Row(c.user, 1, c.now, c.now, None, body)
            else Breaks(db, d)
  {
  }

  /** Absent fields keep their value, except the folder, which is set to what the request says, absent or not. */
  lemma UpdateNoteEffect(db: Db, c: Caller, id: Uuid, base: int, title: Option<string>, content: Option<string>,
                         pinned: Option<bool>, folderId: Option<Uuid>)
    ensures var d := Execute(db, c, UpdateNote(id, base, title, content, pinned, folderId));
            if !HasLive(db.notes, c.user, id) || db.notes[id].version != base then NoteRefused(db, d, c.user, id)
            else if base != 0x7fff_ffff && |title.GetOr(db.notes[id].body.title)| <= 100
                    && |content.GetOr(db.notes[id].body.content)| <= 10_000
                    && (folderId.Some? ==> folderId.value in db.folders)
            then
              var was := db.notes[id];
              NoteWritten(db, d, id)
              && var row := d.db.notes[id];
                 && Touched(was, row, c.now) && row.deletedAt == None
                 && row.body.title == (if title.Some? then title.value else was.body.title)
                 && row.body.content == (if content.Some? then content.value else was.body.content)
                 && row.body.pinned == (if pinned.Some? then pinned.value else was.body.pinned)
                 && row.body.folderId == folderId
            else Breaks(db, d)
  {
  }

  lemma DeleteNoteEffect(db: Db, c: Caller, id: Uuid, base: int)
    ensures var d := Execute(db, c, DeleteNote(id, base));
            if !HasLive(db.notes, c.user, id) || db.notes[id].version != base then NoteRefused(db, d, c.user, id)
            else if base == 0x7fff_ffff then Breaks(db, d)
            else
              var was := db.notes[id];
              NoteWritten(db, d, id)
              && var row := d.db.notes[id];
                 Touched(was, row, c.now) && row.deletedAt == Some(c.now) && row.body == was.body
  {
  }

  lemma AddNoteToFolderEffect(db: Db, c: Caller, id: Uuid, folder: Uuid)
    ensures var d := Execute(db, c, AddNoteToFolder(id, folder));
            if !HasLive(db.notes, c.user, id) then d.db == db && d.reply == Err(NoteNotFound)
            else if !HasLive(db.folders, c.user, folder) then d.db == db && d.reply == Err(FolderNotFound)
            else if db.notes[id].body.folderId == Some(folder) then
              d.db == db && d.reply.Ok? && d.reply.value.OneNote? && Shows(d.reply.value.note, id, db.notes[id])
            else if db.notes[id].version == 0x7fff_ffff then Breaks(db, d)
            else
              var was := db.notes[id];
              NoteWritten(db, d, id)
              && var row := d.db.notes[id];
                 && Touched(was, row, c.now) && row.deletedAt == None && row.body.folderId == Some(folder)
                 && row.body.title == was.body.title && row.body.content == was.body.content && row.body.pinned == was.body.pinned
  {
  }

  lemma RemoveNoteFromFolderEffect(db: Db, c: Caller, id: Uuid, folder: Uuid)
    ensures var d := Execute(db, c, RemoveNoteFromFolder(id, folder));
            if !HasLive(db.notes, c.user, id) || db.notes[id].body.folderId != Some(folder) then d.db == db && d.reply == Err(NoteNotFound)
            else if db.notes[id].version == 0x7fff_ffff then Breaks(db, d)
            else
              var was := db.notes[id];
              NoteWritten(db, d, id)
              && var row := d.db.notes[id];
                 && Touched(was, row, c.now) && row.deletedAt == None && row.body.folderId == None
                 && row.body.title == was.body.title && row.body.content == was.body.content && row.body.pinned == was.body.pinned
  {
  }

  /** Every listed live note of the caller is moved, every other row stays, and the reply shows exactly the moved ones. */
  lemma MoveNotesEffect(db: Db, c: Caller, ids: seq<Uuid>, folderId: Option<Uuid>)
    ensures var d := Execute(db, c, MoveNotes(ids, folderId));
            if ids == [] then d.db == db && d.reply == Ok(MovedNotes({}))
            else if |ids| > 200 then d.db == db && d.reply.Err? && d.reply.error.BadRequest?
            else if folderId.Some? && !HasLive(db.folders, c.user, folderId.value) then d.db == db && d.reply == Err(FolderNotFound)
            else if exists id :: id in ids && HasLive(db.notes, c.user, id) && db.notes[id].version == 0x7fff_ffff then Breaks(db, d)
            else
              && d.db.folders == db.folders && d.db.notes.Keys == db.notes.Keys && d.reply.Ok? && d.reply.value.MovedNotes?
              && (forall id | id in db.notes && !(id in ids && HasLive(db.notes, c.user, id)) :: d.db.notes[id] == db.notes[id])
              && (forall id | id in ids && HasLive(db.notes, c.user, id) ::
                    var was, row := db.notes[id], d.db.notes[id];
                    && Touched(was, row, c.now) && row.deletedAt == None && row.body.folderId == folderId
                    && row.body.title == was.body.title && row.body.content == was.body.content && row.body.pinned == was.body.pinned
                    && ToDto(id, row) in d.reply.value.notes)
              && (forall dto | dto in d.reply.value.notes ::
                    dto.id in ids && HasLive(db.notes, c.user, dto.id) && Shows(dto, dto.id, d.db.notes[dto.id]))
  {
    hide MoveWrites;
    assert forall id :: Moves(db, c.user, ids, id) <==> id in ids && HasLive(db.notes, c.user, id);
  }

  // ---- folders ----

  lemma CreateFolderEffect(db: Db, c: Caller, id: Uuid, title: string, pinned: Option<bool>)
    ensures var d := Execute(db, c, CreateFolder(id, title, pinned));
            if id !in db.folders && |title| <= 100 && pinned.Some?
            then FolderWritten(db, d, id) && d.db.folders[id] == Row(c.user, 1, c.now, c.now, None, FolderBody(title, pinned.value))
            else Breaks(db, d)
  {
  }

  lemma UpdateFolderEffect(db: Db, c: Caller, id: Uuid, base: int, title: Option<string>, pinned: Option<bool>)
    ensures var d := Execute(db, c, UpdateFolder(id, base, title, pinned));
            if !HasLive(db.folders, c.user, id) || db.folders[id].version != base then FolderRefused(db, d, c.user, id)
            else if base != 0x7fff_ffff && |title.GetOr(db.folders[id].body.title)| <= 100 then
              var was := db.folders[id];
              FolderWritten(db, d, id)
              && var row := d.db.folders[id];
                 && Touched(was, row, c.now) && row.deletedAt == None
                 && row.body.title == (if title.Some? then title.value else was.body.title)
                 && row.body.pinned == (if pinned.Some? then pinned.value else was.body.pinned)
            else Breaks(db, d)
  {
  }

  lemma DeleteFolderEffect(db: Db, c: Caller, id: Uuid, base: int)
    ensures var d := Execute(db, c, DeleteFolder(id, base));
            if !HasLive(db.folders, c.user, id) || db.folders[id].version != base then FolderRefused(db, d, c.user, id)
            else if base == 0x7fff_ffff then Breaks(db, d)
            else
              var was := db.folders[id];
              FolderWritten(db, d, id)
              && var row := d.db.folders[id];
                 Touched(was, row, c.now) && row.deletedAt == Some(c.now) && row.body == was.body
  {
  }

  /** A push of no mutations does nothing, and one of more than 200 is refused. */
  lemma PushSizes(db: Db, c: Caller, ms: seq<SyncMutation>)
    ensures ms == [] ==> Execute(db, c, SyncPush(ms)).db == db && Execute(db, c, SyncPush(ms)).reply == Ok(PushResults([]))
    ensures |ms| > 200 ==> var d := Execute(db, c, SyncPush(ms)); d.db == db && d.reply.Err? && d.reply.error.BadRequest?
  {
    hide Run;
  }

  // ---- purges ----

  /** A purge that takes all it may takes every tombstone from before the cutoff, and no other row. */
  lemma PurgeTakesExactly<B>(table: Table<B>, cutoff: Timestamp)
    ensures var left := Without(table, Purgeable(table, cutoff));
            forall id :: id in left <==> id in table && !(table[id].deletedAt.Some? && table[id].deletedAt.value < cutoff)
    ensures var left := Without(table, Purgeable(table, cutoff)); forall id | id in left :: left[id] == table[id]
  {
  }

  lemma PurgeFoldersEffect(db: Db, gone: set<Uuid>, now: Timestamp)
    ensures var db' := PurgeFolders(db, gone, now);
            && (forall id :: id in db'.folders <==> id in db.folders && id !in gone)
            && (forall id | id in db'.folders :: db'.folders[id] == db.folders[id])
            && db'.notes.Keys == db.notes.Keys
            && (forall id | id in db.notes ::
                  var was, row := db.notes[id], db'.notes[id];
                  if was.body.folderId.Some? && was.body.folderId.value in gone then
                    && row.body.folderId == None && row.updatedAt == now && row.version == was.version
                    && row.creatorId == was.creatorId && row.createdAt == was.createdAt && row.deletedAt == was.deletedAt
                    && row.body.title == was.body.title && row.body.content == was.body.content && row.body.pinned == was.body.pinned
                  else row == was)
  {
  }
}
