/** The pull half of the sync: rows changed since the client's cursors, oldest change first. */
module NotesPull {
  import opened Wrappers
  import opened Types
  import opened Cursors
  import opened Keyset
  import opened Pagination
  import opened NotesModel

  /** A page of one entity type. */
  datatype SyncPage<+B> = SyncPage(rows: seq<Dto<B>>, nextCursor: Option<Cursor>, hasMore: bool)

  datatype PullResponse = PullResponse(notes: SyncPage<NoteBody>, folders: SyncPage<FolderBody>)

  /** The requested page size, 200 by default and between 1 and 500. */
  function SyncLimit(requested: Option<int>): (n: nat)
    ensures 1 <= n <= 500
  {
    Clamp(requested.GetOr(200), 1, 500)
  }

  /** 200 unless asked for, what is asked for from 1 to 500, and the nearer end outside. */
  lemma SyncLimitHonoured(requested: Option<int>)
    ensures requested.None? ==> SyncLimit(requested) == 200
    ensures requested.Some? ==>
              var n := requested.value; SyncLimit(requested) == if n < 1 then 1 else if n > 500 then 500 else n
  {
  }

  /** The caller's rows, tombstones included, by (updated_at, id). */
  function OwnKeys<B>(table: Table<B>, user: Uuid): set<Key> {
    set id | id in table && table[id].creatorId == user :: Key(table[id].updatedAt, id)
  }

  function RowsAt<B>(table: Table<B>, keys: seq<Key>): (rows: seq<Dto<B>>)
    requires forall k | k in keys :: k.id in table
    ensures |rows| == |keys| && forall i | 0 <= i < |keys| :: rows[i] == ToDto(keys[i].id, table[keys[i].id])
  {
    if keys == [] then [] else [ToDto(keys[0].id, table[keys[0].id])] + RowsAt(table, keys[1..])
  }

  /** `find_*_changed_since`: the rows past the cursor, in ascending order. */
  function ChangedSince<B>(table: Table<B>, user: Uuid, at: Option<Key>, n: nat): (rows: seq<Dto<B>>)
  {
    RowsAt(table, Fetch(Asc, OwnKeys(table, user), at, n))
  }

  /** The first `limit` rows; an empty page echoes the client's cursor. */
  function SyncPageOf<B>(fetched: seq<Dto<B>>, cursor: Option<Cursor>, limit: nat): SyncPage<B> {
    var rows := Take(fetched, limit);
    SyncPage(rows,
             if rows == [] then cursor else Some(FromTimestampId(rows[|rows| - 1].updatedAt, rows[|rows| - 1].id)),
             |fetched| > limit)
  }

  function PullTable<B>(table: Table<B>, user: Uuid, cursor: Option<Cursor>, limit: nat): Result<SyncPage<B>, NotesError> {
    match Position(cursor)
    case Err(e) => Err(BadCursor(e))
    case Ok(at) => Ok(SyncPageOf(ChangedSince(table, user, at, limit + 1), cursor, limit))
  }

  function SyncPull(db: Db, user: Uuid, notesCursor: Option<Cursor>, foldersCursor: Option<Cursor>, limit: Option<int>)
    : Result<PullResponse, NotesError>
  {
    var notes :- PullTable(db.notes, user, notesCursor, SyncLimit(limit));
    var folders :- PullTable(db.folders, user, foldersCursor, SyncLimit(limit));
    Ok(PullResponse(notes, folders))
  }

  /** A pull is refused exactly for a cursor that does not decode, the notes cursor first. */
  lemma BadCursorsAreRefused(db: Db, user: Uuid, notesCursor: Option<Cursor>, foldersCursor: Option<Cursor>, limit: Option<int>)
    ensures var r := SyncPull(db, user, notesCursor, foldersCursor, limit);
            if notesCursor.Some? && ToTimestampId(notesCursor.value).Err?
            then r == Err(BadCursor(ToTimestampId(notesCursor.value).error))
            else if foldersCursor.Some? && ToTimestampId(foldersCursor.value).Err?
            then r == Err(BadCursor(ToTimestampId(foldersCursor.value).error))
            else r.Ok?
  {
    hide ToTimestampId, SyncPageOf, ChangedSince;
  }

  /** The truncation of one result vector, which the query made one row too long if there is more. */
  method CutPage<B>(fetched: seq<Dto<B>>, cursor: Option<Cursor>, limit: nat) returns (page: SyncPage<B>)
    ensures page == SyncPageOf(fetched, cursor, limit)
  {
    hide FromTimestampId;
    var rows := fetched;
    var hasMore := |rows| > limit;
    if |rows| > limit {
      rows := rows[..limit];
    }
    var next := cursor;
    if |rows| > 0 {
      var last := rows[|rows| - 1];
      next := Some(FromTimestampId(last.updatedAt, last.id));
    }
    page := SyncPage(rows, next, hasMore);
  }

  method ServeSyncPull(db: Db, user: Uuid, notesCursor: Option<Cursor>, foldersCursor: Option<Cursor>, requested: Option<int>)
    returns (r: Result<PullResponse, NotesError>)
    ensures r == SyncPull(db, user, notesCursor, foldersCursor, requested)
  {
    hide Position, SyncPageOf, ChangedSince;
    var limit := SyncLimit(requested);
    var notesAt := Position(notesCursor);
    if notesAt.Err? {
      return Err(BadCursor(notesAt.error));
    }
    var foldersAt := Position(foldersCursor);
    if foldersAt.Err? {
      return Err(BadCursor(foldersAt.error));
    }
    var notes := CutPage(ChangedSince(db.notes, user, notesAt.value, limit + 1), notesCursor, limit);
    var folders := CutPage(ChangedSince(db.folders, user, foldersAt.value, limit + 1), foldersCursor, limit);
    r := Ok(PullResponse(notes, folders));
  }
}
