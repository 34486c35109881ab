/** No lost updates: versions count the writes of a note, and a version guard wins at most once. */
module NotesVersions {
  import opened Wrappers
  import opened Types
  import opened NotesModel
  import opened NotesPush
  import opened NotesCommands
  import opened NotesWorld

  /** One plus the writes since the note was last created, 0 if it never was. */
  function Life(log: seq<NoteWrite>, id: Uuid): nat {
    if log == [] then 0
    else
      var last := log[|log| - 1];
      if last.id != id then Life(log[..|log| - 1], id)
      else if last.write.Created? then 1
      else Life(log[..|log| - 1], id) + 1
  }

  ghost predicate Counted(notes: Table<NoteBody>, log: seq<NoteWrite>) {
    forall id | id in notes :: notes[id].version == Life(log, id)
  }

  /** Every guarded write was guarded by the version the log had reached. */
  ghost predicate GuardsHeld(log: seq<NoteWrite>) {
    forall j | 0 <= j < |log| && log[j].write.Guarded? :: log[j].write.base == Life(log[..j], log[j].id)
  }

  ghost predicate Faithful(notes: Table<NoteBody>, log: seq<NoteWrite>) {
    Counted(notes, log) && GuardsHeld(log)
  }

  lemma LifeLast(log: seq<NoteWrite>, w: NoteWrite, id: Uuid)
    ensures Life(log + [w], id) == if w.id != id then Life(log, id) else if w.write.Created? then 1 else Life(log, id) + 1
  {
  }

  lemma GuardsLast(log: seq<NoteWrite>, w: NoteWrite)
    requires GuardsHeld(log) && (w.write.Guarded? ==> w.write.base == Life(log, w.id))
    ensures GuardsHeld(log + [w])
  {
    forall j | 0 <= j < |log + [w]| && (log + [w])[j].write.Guarded?
      ensures (log + [w])[j].write.base == Life((log + [w])[..j], (log + [w])[j].id)
    {
      assert (log + [w])[..j] == log[..j] by {
        assert j <= |log|;
      }
      assert log[..|log|] == log;
    }
  }

  /** One logged row write. */
  lemma WriteIsCounted(notes: Table<NoteBody>, log: seq<NoteWrite>, id: Uuid, write: Write, row: Row<NoteBody>)
    requires Faithful(notes, log) && !write.Untouched?
    requires write.Created? ==> row.version == 1
    requires !write.Created? ==> id in notes && row.version == notes[id].version + 1
    requires write.Guarded? ==> write.base == notes[id].version
    ensures Faithful(notes[id := row], log + [NoteWrite(id, write)])
  {
    forall x | x in notes[id := row]
      ensures notes[id := row][x].version == Life(log + [NoteWrite(id, write)], x)
    {
      LifeLast(log, NoteWrite(id, write), x);
    }
    GuardsLast(log, NoteWrite(id, write));
  }

  /** What a mutation's write log entry says about the row. */
  lemma CellWrite<B>(committed: Cell<B>, tx: Cell<B>, c: Caller, m: Mutation<B>, reject: Option<string>,
                     storable: bool, notFound: NotesError)
    requires ApplyToCell(committed, tx, c, m, reject, storable, notFound).Ok?
    ensures var out := ApplyToCell(committed, tx, c, m, reject, storable, notFound).value;
            && (out.write.Untouched? ==> out.cell == tx)
            && (out.write.Created? ==> tx.None? && out.cell.Some? && out.cell.value.version == 1)
            && (out.write.Guarded? || out.write.Unguarded? ==>
                  tx.Some? && out.cell.Some? && out.cell.value.version == tx.value.version + 1)
            && (out.write.Guarded? ==> out.write.base == tx.value.version)
  {
  }

  lemma {:induction false} RunIsCounted(base: Db, owned: set<Uuid>, c: Caller, q: Queue, log: seq<NoteWrite>)
    requires Faithful(base.notes, log) && Run(base, owned, c, q).Ok?
    ensures Faithful(Run(base, owned, c, q).value.db.notes, log + Run(base, owned, c, q).value.writes)
  {
    hide ApplyToCell, Faithful, Unfile, StorableNote, RejectNote;
    if q == [] {
      assert log + [] == log;
    } else {
      RunIsCounted(base, owned, c, q[..|q| - 1], log);
      var p := Run(base, owned, c, q[..|q| - 1]).value;
      match q[|q| - 1].1 {
        case FolderMutation(_) =>
        case NoteMutation(m0) =>
          var m := Unfile(m0, owned);
          CellWrite(At(base.notes, m.id), At(p.db.notes, m.id), c, m, RejectNote(m), StorableNote(p.db, m.body), NoteNotFound);
          var out := ApplyToCell(At(base.notes, m.id), At(p.db.notes, m.id), c, m, RejectNote(m),
                                 StorableNote(p.db, m.body), NoteNotFound).value;
          if out.write.Untouched? {
            assert Put(p.db.notes, m.id, out.cell) == p.db.notes;
            assert log + (p.writes + []) == log + p.writes;
          } else {
            WriteIsCounted(p.db.notes, log + p.writes, m.id, out.write, out.cell.value);
            assert log + (p.writes + [NoteWrite(m.id, out.write)]) == (log + p.writes) + [NoteWrite(m.id, out.write)];
          }
      }
    }
  }

  lemma {:induction false} MoveIsCounted(db: Db, user: Uuid, ids: seq<Uuid>, log: seq<NoteWrite>)
    requires GuardsHeld(log)
    ensures GuardsHeld(log + MoveWrites(db, user, ids))
    ensures forall id :: Life(log + MoveWrites(db, user, ids), id) == Life(log, id) + if Moves(db, user, ids, id) then 1 else 0
  {
    hide GuardsHeld;
    if ids == [] {
      assert log + [] == log;
    } else {
      var front, last := ids[..|ids| - 1], ids[|ids| - 1];
      assert ids == front + [last];
      MoveIsCounted(db, user, front, log);
      var w := MoveWrites(db, user, front);
      if last !in front && Live(At(db.notes, last), user) {
        var entry := NoteWrite(last, Unguarded);
        assert log + (w + [entry]) == (log + w) + [entry];
        GuardsLast(log + w, entry);
        forall id
          ensures Life(log + MoveWrites(db, user, ids), id) == Life(log, id) + if Moves(db, user, ids, id) then 1 else 0
        {
          LifeLast(log + w, entry, id);
        }
      } else {
        assert w + [] == w;
      }
    }
  }

  lemma PushIsCounted(db: Db, c: Caller, ms: seq<SyncMutation>, log: seq<NoteWrite>)
    requires Faithful(db.notes, log) && Push(db, c, ms).Ok?
    ensures Faithful(Push(db, c, ms).value.db.notes, log + Push(db, c, ms).value.writes)
  {
    hide Run, FoldersFirst, Faithful;
    if ms == [] {
      assert log + [] == log;
    } else {
      RunIsCounted(db, OwnedFolderIds(db, c.user, Referenced(ms)), c, FoldersFirst(ms), log);
    }
  }

  lemma EditIsCounted(db: Db, c: Caller, id: Uuid, base: Option<int>, body: NoteBody, deletedAt: Option<Timestamp>,
                      storable: bool, log: seq<NoteWrite>)
    requires Faithful(db.notes, log)
    ensures var d := EditNote(db, c, id, base, body, deletedAt, storable); Faithful(d.db.notes, log + d.writes)
  {
    hide Faithful;
    var d := EditNote(db, c, id, base, body, deletedAt, storable);
    if d.reply.Ok? {
      WriteIsCounted(db.notes, log, id, if base.Some? then Guarded(base.value) else Unguarded, d.db.notes[id]);
    } else {
      assert log + [] == log;
    }
  }

  lemma ExecuteIsCounted(db: Db, c: Caller, cmd: Command, log: seq<NoteWrite>)
    requires Faithful(db.notes, log)
    ensures var d := Execute(db, c, cmd); Faithful(d.db.notes, log + d.writes)
  {
    hide Push, EditNote, EditFolder, EditLive, MoveNotesDone, StorableNote, StorableFolder, Faithful;
    assert log + [] == log;
    match cmd {
      case CreateNote(id, body) =>
        if id !in db.notes && StorableNote(db, body) {
          WriteIsCounted(db.notes, log, id, Created, Inserted(c, body));
        }
      case UpdateNote(id, base, title, content, pinned, folderId) =>
        var was := NoteBodyAt(db, id);
        var body := NoteBody(title.GetOr(was.title), content.GetOr(was.content), pinned.GetOr(was.pinned), folderId);
        EditIsCounted(db, c, id, Some(base), body, None, StorableNote(db, body), log);
      case DeleteNote(id, base) =>
        EditIsCounted(db, c, id, Some(base), NoteBodyAt(db, id), Some(c.now), true, log);
      case AddNoteToFolder(id, folder) =>
        if id in db.notes {
          EditIsCounted(db, c, id, None, db.notes[id].body.(folderId := Some(folder)), None, true, log);
        }
      case RemoveNoteFromFolder(id, folder) =>
        EditIsCounted(db, c, id, None, NoteBodyAt(db, id).(folderId := None), None, true, log);
      case MoveNotes(ids, folderId) => MoveDoneIsCounted(db, c, ids, folderId, log);
      case CreateFolder(_, _, _) =>
      case UpdateFolder(id, base, title, pinned) =>
        var was := FolderBodyAt(db, id);
        var body := FolderBody(title.GetOr(was.title), pinned.GetOr(was.pinned));
        EditFolderLeavesNotes(db, c, id, base, body, None, StorableFolder(body));
      case DeleteFolder(id, base) => EditFolderLeavesNotes(db, c, id, base, FolderBodyAt(db, id), Some(c.now), true);
      case SyncPush(ms) =>
        if Push(db, c, ms).Ok? {
          PushIsCounted(db, c, ms, log);
        }
    }
  }

  lemma MoveDoneIsCounted(db: Db, c: Caller, ids: seq<Uuid>, folderId: Option<Uuid>, log: seq<NoteWrite>)
    requires Faithful(db.notes, log)
    ensures var d := MoveNotesDone(db, c, ids, folderId); Faithful(d.db.notes, log + d.writes)
  {
    assert log + [] == log;
    MoveIsCounted(db, c.user, ids, log);
  }

  lemma EditFolderLeavesNotes(db: Db, c: Caller, id: Uuid, base: int, body: FolderBody, deletedAt: Option<Timestamp>,
                              storable: bool)
    ensures var d := EditFolder(db, c, id, base, body, deletedAt, storable); d.db.notes == db.notes && d.writes == []
  {
  }

  // ---- over whole histories, purges included ----

  function Log(user: Uuid, w: World, events: seq<Event>): seq<NoteWrite> {
    if events == [] then []
    else
      var front, last := events[..|events| - 1], events[|events| - 1];
      Log(user, w, front)
      + (if last.Request? then Execute(Replay(user, w, front).db, Caller(last.actor, last.now), last.cmd).writes else [])
  }

  lemma StepIsCounted(user: Uuid, w: World, e: Event, log: seq<NoteWrite>)
    requires Faithful(w.db.notes, log)
    ensures Faithful(Step(user, w, e).db.notes,
                     log + if e.Request? then Execute(w.db, Caller(e.actor, e.now), e.cmd).writes else [])
  {
    hide Execute, Pulled, GuardsHeld, Life;
    assert log + [] == log;
    if e.Request? {
      ExecuteIsCounted(w.db, Caller(e.actor, e.now), e.cmd, log);
    }
  }

  lemma {:induction false} HistoryIsCounted(user: Uuid, w: World, events: seq<Event>)
    requires w.db.notes == map[]
    ensures Faithful(Replay(user, w, events).db.notes, Log(user, w, events))
  {
    hide Step, Execute;
    if events != [] {
      HistoryIsCounted(user, w, events[..|events| - 1]);
      StepIsCounted(user, Replay(user, w, events[..|events| - 1]), events[|events| - 1], Log(user, w, events[..|events| - 1]));
    }
  }

  /** A note's version is one plus the successful writes since it was created, across edits, moves and sync. */
  lemma VersionCountsWrites(user: Uuid, w: World, events: seq<Event>, id: Uuid)
    requires w.db.notes == map[] && id in Replay(user, w, events).db.notes
    ensures Replay(user, w, events).db.notes[id].version == Life(Log(user, w, events), id)
  {
    hide Replay, Log, Life;
    HistoryIsCounted(user, w, events);
  }

  ghost predicate SameLife(log: seq<NoteWrite>, id: Uuid, i: int, j: int) {
    0 <= i < j < |log| && log[i].id == id && log[j].id == id
    && forall k | i < k <= j :: log[k].id == id ==> !log[k].write.Created?
  }

  lemma {:induction false} LifeGrows(log: seq<NoteWrite>, id: Uuid, i: nat, j: nat)
    requires i < j <= |log| && log[i].id == id && (forall k | i < k < j :: log[k].id == id ==> !log[k].write.Created?)
    requires !log[i].write.Created?
    ensures Life(log[..j], id) > Life(log[..i], id)
    decreases j
  {
    assert log[..j][..j - 1] == log[..j - 1];
    if i < j - 1 {
      LifeGrows(log, id, i, j - 1);
    }
  }

  /** Within a note's lifetime the bases of its guarded writes strictly increase: each version is won at most once. */
  lemma GuardedWritesNeverShareABase(user: Uuid, w: World, events: seq<Event>, id: Uuid, i: nat, j: nat)
    requires w.db.notes == map[]
    requires SameLife(Log(user, w, events), id, i, j)
    requires Log(user, w, events)[i].write.Guarded? && Log(user, w, events)[j].write.Guarded?
    ensures Log(user, w, events)[i].write.base < Log(user, w, events)[j].write.base
  {
    hide Replay, Log, Life;
    HistoryIsCounted(user, w, events);
    LifeGrows(Log(user, w, events), id, i, j);
  }
}
