/**
  Notes and folders: the stored rows, the sync mutations and what a write does to the one row it names.
  Notes and folders are synchronised alike, so a row carries its own kind of body.
 */
module NotesModel {
  import opened Wrappers
  import opened Types
  import Cursors

  datatype NoteBody = NoteBody(title: string, content: string, pinned: bool, folderId: Option<Uuid>)
  datatype FolderBody = FolderBody(title: string, pinned: bool)

  datatype Row<+B> = Row(creatorId: Uuid, version: int, createdAt: Timestamp, updatedAt: Timestamp,
                         deletedAt: Option<Timestamp>, body: B)

  type Table<+B> = map<Uuid, Row<B>>
  type Cell<+B> = Option<Row<B>>

  datatype Db = Db(notes: Table<NoteBody>, folders: Table<FolderBody>)

  /** The row as clients see it. */
  datatype Dto<+B> = Dto(id: Uuid, version: int, createdAt: Timestamp, updatedAt: Timestamp, deleted: bool, body: B)

  function ToDto<B>(id: Uuid, row: Row<B>): Dto<B> {
    Dto(id, row.version, row.createdAt, row.updatedAt, row.deletedAt.Some?, row.body)
  }

  datatype Entity = NoteEntity(note: Dto<NoteBody>) | FolderEntity(folder: Dto<FolderBody>)

  datatype NotesError =
    | NoteNotFound
    | FolderNotFound
    | BadRequest(message: string)
    | VersionConflict(entity: Entity)
    | BadCursor(cursor: Cursors.CursorError)
    | Database

  /** A full snapshot of one entity: `baseVersion` None claims that the id has never reached the server. */
  datatype Mutation<+B> = Mutation(id: Uuid, body: B, deleted: bool, baseVersion: Option<int>, clientUpdatedAt: Timestamp)

  datatype SyncMutation = NoteMutation(note: Mutation<NoteBody>) | FolderMutation(folder: Mutation<FolderBody>)

  datatype Outcome = Applied | Conflict | Rejected

  datatype RowResult<+B> = RowResult(id: Uuid, outcome: Outcome, entity: Option<Dto<B>>, reason: Option<string>)

  datatype MutationResult = NoteResult(note: RowResult<NoteBody>) | FolderResult(folder: RowResult<FolderBody>)

  function MutationId(m: SyncMutation): Uuid {
    match m
    case NoteMutation(nm) => nm.id
    case FolderMutation(fm) => fm.id
  }

  /** How a stored row was written, if it was: inserted, under a version guard, or without one. */
  datatype Write = Untouched | Created | Guarded(base: int) | Unguarded

  datatype NoteWrite = NoteWrite(id: Uuid, write: Write)

  /** Who makes the request, and the NOW() of its transaction. */
  datatype Caller = Caller(user: Uuid, now: Timestamp)

  const I32_MAX := 0x7fff_ffff
  const MAX_TITLE := 100
  const MAX_CONTENT := 10_000

  function At<B>(table: Table<B>, id: Uuid): Cell<B> {
    if id in table then Some(table[id]) else None
  }

  function Put<B>(table: Table<B>, id: Uuid, cell: Cell<B>): Table<B> {
    if cell.Some? then table[id := cell.value] else table
  }

  predicate Owned<B>(cell: Cell<B>, user: Uuid) {
    cell.Some? && cell.value.creatorId == user
  }

  /** What find_note_by_id and find_folder_by_id can see. */
  predicate Live<B>(cell: Cell<B>, user: Uuid) {
    Owned(cell, user) && cell.value.deletedAt.None?
  }

  /** Column limits and foreign keys. */
  predicate StorableNote(db: Db, body: NoteBody) {
    && |body.title| <= MAX_TITLE && |body.content| <= MAX_CONTENT
    && (body.folderId.Some? ==> body.folderId.value in db.folders)
  }

  predicate StorableFolder(body: FolderBody) {
    |body.title| <= MAX_TITLE
  }

  function Inserted<B>(c: Caller, body: B): Row<B> {
    Row(c.user, 1, c.now, c.now, None, body)
  }

  /** `version = version + 1, updated_at = NOW()`: an error where the column is not storable or the version column is full. */
  function Rewritten<B>(row: Row<B>, body: B, deletedAt: Option<Timestamp>, storable: bool, now: Timestamp)
    : Result<Row<B>, NotesError>
  {
    if !storable || row.version == I32_MAX then Err(Database)
    else Ok(Row(row.creatorId, row.version + 1, row.createdAt, now, deletedAt, body))
  }

  /** The tombstone of a snapshot: kept from the first deletion, cleared by an undelete. */
  function Tombstone(prior: Option<Timestamp>, deleted: bool, now: Timestamp): Option<Timestamp> {
    if deleted then Some(prior.GetOr(now)) else None
  }

  datatype CellOutcome<+B> = CellOutcome(cell: Cell<B>, result: RowResult<B>, write: Write)

  /**
    One sync mutation on the row it names. The row is written as the transaction sees it (`tx`);
    the current row of a conflict is looked up outside the transaction, so it is the committed one.
   */
  function ApplyToCell<B>(committed: Cell<B>, tx: Cell<B>, c: Caller, m: Mutation<B>,
                          reject: Option<string>, storable: bool, notFound: NotesError)
    : Result<CellOutcome<B>, NotesError>
  {
    if reject.Some? then Ok(CellOutcome(tx, RowResult(m.id, Rejected, None, reject), Untouched))
    else if m.baseVersion.None? then
      if m.deleted then Ok(CellOutcome(tx, RowResult(m.id, Applied, None, None), Untouched))
      else if tx.None? then
        if storable then
          var row := Inserted(c, m.body);
          Ok(CellOutcome(Some(row), RowResult(m.id, Applied, Some(ToDto(m.id, row)), None), Created))
        else Err(Database)
      else if !Live(committed, c.user) then Err(notFound)
      else if m.clientUpdatedAt > committed.value.updatedAt then
        if !Owned(tx, c.user) then Err(Database)
        else
          var row :- Rewritten(tx.value, m.body, Tombstone(tx.value.deletedAt, m.deleted, c.now), storable, c.now);
          Ok(CellOutcome(Some(row), RowResult(m.id, Applied, Some(ToDto(m.id, row)), None), Unguarded))
      else
        Ok(CellOutcome(tx, RowResult(m.id, Conflict, Some(ToDto(m.id, committed.value)), None), Untouched))
    else if Owned(tx, c.user) && tx.value.version == m.baseVersion.value then
      var row :- Rewritten(tx.value, m.body, Tombstone(tx.value.deletedAt, m.deleted, c.now), storable, c.now);
      Ok(CellOutcome(Some(row), RowResult(m.id, Applied, Some(ToDto(m.id, row)), None), Guarded(m.baseVersion.value)))
    else if !Live(committed, c.user) then Err(notFound)
    else
      Ok(CellOutcome(tx, RowResult(m.id, Conflict, Some(ToDto(m.id, committed.value)), None), Untouched))
  }

  function RejectNote(m: Mutation<NoteBody>): Option<string> {
    if |m.body.title| > MAX_TITLE then Some("title exceeds 100 characters")
    else if |m.body.content| > MAX_CONTENT then Some("content exceeds 10,000 characters")
    else None
  }

  function RejectFolder(m: Mutation<FolderBody>): Option<string> {
    if |m.body.title| > MAX_TITLE then Some("title exceeds 100 characters") else None
  }
}
