/** The WebSocket registry with its offline buffer, and what one user's socket sees over disconnects and reconnects. */
module WebSockets {
  import opened Wrappers
  import opened Types

  const MAX_CONNECTIONS := 5
  const MESSAGE_BUFFER_SIZE := 50

  type Message = nat

  /** A registered connection and the messages its sender channel holds. */
  datatype Connection = Connection(id: nat, channel: seq<Message>)

  /** Connections and offline buffers by user; a buffer lists the newest message first. */
  datatype Hub = Hub(clients: map<Uuid, seq<Connection>>, nextId: nat, buffers: map<Uuid, seq<Message>>)

  function Buffer(h: Hub, user: Uuid): seq<Message> {
    if user in h.buffers then h.buffers[user] else []
  }

  /** `LPUSH` and `LTRIM key 0 50`: the stop index is inclusive, so 51 messages stay. */
  function Pushed(buffer: seq<Message>, m: Message): seq<Message> {
    var longer := [m] + buffer;
    if |longer| <= MESSAGE_BUFFER_SIZE + 1 then longer else longer[..MESSAGE_BUFFER_SIZE + 1]
  }

  function Buffered(h: Hub, user: Uuid, m: Message): Hub {
    h.(buffers := h.buffers[user := Pushed(Buffer(h, user), m)])
  }

  function Delivered(connections: seq<Connection>, m: Message): (r: seq<Connection>)
    ensures |r| == |connections|
    ensures forall i | 0 <= i < |r| :: r[i] == Connection(connections[i].id, connections[i].channel + [m])
  {
    if connections == [] then []
    else [Connection(connections[0].id, connections[0].channel + [m])] + Delivered(connections[1..], m)
  }

  /** To every connection of the user on this instance, or into the buffer when there is none. */
  function Sent(h: Hub, user: Uuid, m: Message): Hub {
    if user in h.clients then h.(clients := h.clients[user := Delivered(h.clients[user], m)]) else Buffered(h, user, m)
  }

  function Others(connections: seq<Connection>, id: nat): (r: seq<Connection>)
    ensures forall c :: c in r <==> c in connections && c.id != id
    ensures |r| <= |connections|
  {
    if connections == [] then []
    else
      assert connections == [connections[0]] + connections[1..];
      (if connections[0].id != id then [connections[0]] else []) + Others(connections[1..], id)
  }

  function Reversed(q: seq<Message>): (r: seq<Message>)
    ensures |r| == |q| && forall i | 0 <= i < |q| :: r[i] == q[|q| - 1 - i]
  {
    if q == [] then [] else Reversed(q[1..]) + [q[0]]
  }

  predicate DistinctIds(connections: seq<Connection>) {
    forall i, j | 0 <= i < j < |connections| :: connections[i].id != connections[j].id
  }

  function Ids(connections: seq<Connection>): set<nat> {
    set c | c in connections :: c.id
  }

  /** Every listed user has a connection, within the limit, and connection ids are never given twice. */
  ghost predicate Valid(h: Hub) {
    && (forall user | user in h.clients :: 0 < |h.clients[user]| <= MAX_CONNECTIONS && DistinctIds(h.clients[user]))
    && (forall user, id | user in h.clients && id in Ids(h.clients[user]) :: id < h.nextId)
    && (forall user, user' | user in h.clients && user' in h.clients && user != user' ::
          Ids(h.clients[user]) !! Ids(h.clients[user']))
    && (forall user | user in h.buffers :: |h.buffers[user]| <= MESSAGE_BUFFER_SIZE + 1)
  }

  /** A user's entry may be replaced by connections it had, or new ones. */
  lemma EntryReplaced(h: Hub, user: Uuid, entry: seq<Connection>, nextId: nat)
    requires Valid(h) && 0 < |entry| <= MAX_CONNECTIONS && DistinctIds(entry) && h.nextId <= nextId
    requires forall id | id in Ids(entry) :: id < nextId && (h.nextId <= id || (user in h.clients && id in Ids(h.clients[user])))
    ensures Valid(Hub(h.clients[user := entry], nextId, h.buffers))
  {
  }

  lemma DeliveredIds(connections: seq<Connection>, m: Message)
    ensures Ids(Delivered(connections, m)) == Ids(connections)
    ensures DistinctIds(connections) ==> DistinctIds(Delivered(connections, m))
  {
    var r := Delivered(connections, m);
    forall id
      ensures id in Ids(r) <==> id in Ids(connections)
    {
      if id in Ids(r) {
        var i :| 0 <= i < |r| && r[i].id == id;
        assert connections[i] in connections;
      }
      if id in Ids(connections) {
        var i :| 0 <= i < |r| && connections[i].id == id;
        assert r[i] in r;
      }
    }
  }

  class WsService {
    var clients: map<Uuid, seq<Connection>>
    var connSeq: nat
    var buffers: map<Uuid, seq<Message>>

    constructor ()
      ensures Abstract() == Hub(map[], 0, map[]) && Valid(Abstract())
    {
      clients, connSeq, buffers := map[], 0, map[];
    }

    function Abstract(): Hub
      reads this
    {
      Hub(clients, connSeq, buffers)
    }

    /** A new connection with an id never used before, unless the user already has five. */
    method Register(user: Uuid) returns (id: Option<nat>)
      requires Valid(Abstract())
      modifies this
      ensures Valid(Abstract())
      ensures Abstract() == Registered(old(Abstract()), user)
      ensures id == if AtLimit(old(Abstract()), user) then None else Some(old(connSeq))
    {
      var entry := if user in clients then clients[user] else [];
      if |entry| >= MAX_CONNECTIONS {
        return None;
      }
      id := Some(connSeq);
      clients := clients[user := entry + [Connection(connSeq, [])]];
      connSeq := connSeq + 1;
      RegisteredIsValid(old(Abstract()), user);
    }

    /** The connection goes; the user's entry goes with the last one, so that `is_online` turns false. */
    method Unregister(user: Uuid, id: nat)
      requires Valid(Abstract())
      modifies this
      ensures Valid(Abstract())
      ensures Abstract() == Unregistered(old(Abstract()), user, id)
    {
      if user in clients {
        var left := Others(clients[user], id);
        if left == [] {
          clients := clients - {user};
        } else {
          clients := clients[user := left];
        }
      }
      UnregisteredIsValid(old(Abstract()), user, id);
    }

    method SendToUser(user: Uuid, m: Message)
      requires Valid(Abstract())
      modifies this
      ensures Valid(Abstract())
      ensures Abstract() == Sent(old(Abstract()), user, m)
    {
      hide Valid;
      if user in clients {
        var channels := clients[user];
        for i := 0 to |channels|
          invariant |channels| == |clients[user]|
          invariant user in clients && clients == old(clients) && Abstract() == old(Abstract())
          invariant forall k | 0 <= k < |channels| :: channels[k] ==
                      if k < i then Connection(clients[user][k].id, clients[user][k].channel + [m]) else clients[user][k]
        {
          channels := channels[i := Connection(channels[i].id, channels[i].channel + [m])];
        }
        assert channels == Delivered(clients[user], m);
        SentIsValid(Abstract(), user, m);
        clients := clients[user := channels];
        return;
      }
      BufferMessage(user, m);
    }

    method BufferMessage(user: Uuid, m: Message)
      requires Valid(Abstract())
      modifies this`buffers
      ensures Valid(Abstract())
      ensures Abstract() == Buffered(old(Abstract()), user, m)
    {
      var list := [m] + (if user in buffers then buffers[user] else []);
      if |list| > MESSAGE_BUFFER_SIZE + 1 {
        list := list[..MESSAGE_BUFFER_SIZE + 1];
      }
      buffers := buffers[user := list];
    }

    /** All buffered messages, oldest first; the buffer is empty afterwards. */
    method DrainMessageBuffer(user: Uuid) returns (messages: seq<Message>)
      requires Valid(Abstract())
      modifies this`buffers
      ensures Valid(Abstract())
      ensures messages == Reversed(Buffer(old(Abstract()), user))
      ensures Abstract() == Drained(old(Abstract()), user)
    {
      var items := if user in buffers then buffers[user] else [];
      buffers := buffers - {user};
      messages := [];
      for i := 0 to |items|
        invariant messages == Reversed(items[..i])
        invariant Abstract() == Drained(old(Abstract()), user)
      {
        messages := [items[i]] + messages;
        assert items[..i + 1][..i] == items[..i];
        assert messages == Reversed(items[..i + 1]);
      }
      assert items[..|items|] == items;
    }
  }

  predicate AtLimit(h: Hub, user: Uuid) {
    user in h.clients && |h.clients[user]| >= MAX_CONNECTIONS
  }

  function Registered(h: Hub, user: Uuid): Hub {
    if AtLimit(h, user) then h
    else
      var entry := if user in h.clients then h.clients[user] else [];
      h.(clients := h.clients[user := entry + [Connection(h.nextId, [])]], nextId := h.nextId + 1)
  }

  function Unregistered(h: Hub, user: Uuid, id: nat): Hub {
    if user !in h.clients then h
    else
      var left := Others(h.clients[user], id);
      h.(clients := if left == [] then h.clients - {user} else h.clients[user := left])
  }

  function Drained(h: Hub, user: Uuid): Hub {
    h.(buffers := h.buffers - {user})
  }

  lemma NewIdLast(was: seq<Connection>, id: nat)
    requires DistinctIds(was) && forall x | x in Ids(was) :: x < id
    ensures DistinctIds(was + [Connection(id, [])])
    ensures Ids(was + [Connection(id, [])]) == Ids(was) + {id}
  {
  }

  lemma RegisteredIsValid(h: Hub, user: Uuid)
    requires Valid(h)
    ensures Valid(Registered(h, user))
  {
    hide DistinctIds, Ids;
    if !AtLimit(h, user) {
      NoIds();
      var was := if user in h.clients then h.clients[user] else [];
      NewIdLast(was, h.nextId);
      EntryReplaced(h, user, was + [Connection(h.nextId, [])], h.nextId + 1);
    }
  }

  lemma NoIds()
    ensures DistinctIds([]) && Ids([]) == {}
  {
  }

  lemma {:induction false} OthersKeepIds(connections: seq<Connection>, id: nat)
    requires DistinctIds(connections)
    ensures DistinctIds(Others(connections, id))
  {
    if connections != [] {
      OthersKeepIds(connections[1..], id);
      var rest := Others(connections[1..], id);
      assert forall c | c in connections[1..] :: c.id != connections[0].id;
      assert forall j | 0 <= j < |rest| :: rest[j] in rest && rest[j] in connections[1..];
    }
  }

  lemma UnregisteredIsValid(h: Hub, user: Uuid, id: nat)
    requires Valid(h)
    ensures Valid(Unregistered(h, user, id))
  {
    if user in h.clients {
      var left := Others(h.clients[user], id);
      OthersKeepIds(h.clients[user], id);
      assert forall x | x in Ids(left) :: x in Ids(h.clients[user]);
      if left != [] {
        EntryReplaced(h, user, left, h.nextId);
      } else {
        EntryRemoved(h, user);
      }
    }
  }

  lemma EntryRemoved(h: Hub, user: Uuid)
    requires Valid(h)
    ensures Valid(h.(clients := h.clients - {user}))
  {
  }

  lemma SentIsValid(h: Hub, user: Uuid, m: Message)
    requires Valid(h)
    ensures Valid(Sent(h, user, m))
  {
    hide DistinctIds, Ids;
    if user in h.clients {
      DeliveredIds(h.clients[user], m);
      EntryReplaced(h, user, Delivered(h.clients[user], m), h.nextId);
    }
  }

  // ---- one user's socket ----

  /**
    The life of a connection in the order the handler takes it: registered, buffered messages replayed, then the write task
    running, then the write task over and the connection not yet unregistered.
   */
  datatype Phase = Offline | Connected(id: nat) | Replaying(id: nat, rest: seq<Message>) | Writing(id: nat) | Closing(id: nat)

  /**
    `sent` numbers the messages sent to the user; `written` is what reached a socket. `buffered` and `expired` remember what
    was buffered since the last drain and whether the buffer expired since.
   */
  datatype World = World(hub: Hub, phase: Phase, sent: nat, written: seq<Message>, buffered: seq<Message>, expired: bool)

  /** `ok` is whether the socket takes the message. */
  datatype Step = Send | Expire | Connect | Drain | Replay(ok: bool) | StartWriting | Write(ok: bool) | StopWriting | Disconnect

  function Channel(w: World, user: Uuid): seq<Message> {
    if user in w.hub.clients && w.hub.clients[user] != [] then w.hub.clients[user][0].channel else []
  }

  function SendTo(user: Uuid, w: World): World {
    w.(hub := Sent(w.hub, user, w.sent), sent := w.sent + 1,
       buffered := if user in w.hub.clients then w.buffered else w.buffered + [w.sent])
  }

  function DrainInto(user: Uuid, w: World): World {
    if w.phase.Connected?
    then w.(hub := Drained(w.hub, user), phase := Replaying(w.phase.id, Reversed(Buffer(w.hub, user))), buffered := [], expired := false)
    else w
  }

  function ReplayOne(w: World, ok: bool): World {
    if w.phase.Replaying? && w.phase.rest != []
    then w.(phase := Replaying(w.phase.id, w.phase.rest[1..]), written := if ok then w.written + [w.phase.rest[0]] else w.written)
    else w
  }

  /** The write task takes the next message from the channel; it ends when the socket refuses one. */
  function WriteOne(user: Uuid, w: World, ok: bool): World {
    if w.phase.Writing? && Channel(w, user) != []
    then
      var c := w.hub.clients[user][0];
      var w' := w.(hub := w.hub.(clients := w.hub.clients[user := w.hub.clients[user][0 := Connection(c.id, c.channel[1..])]]));
      if ok then w'.(written := w.written + [c.channel[0]]) else w'.(phase := Closing(w.phase.id))
    else w
  }

  /** One atomic step; a step that does not fit the phase changes nothing. */
  function Apply(user: Uuid, w: World, step: Step): World {
    match step
    case Send => SendTo(user, w)
    case Expire => w.(hub := Drained(w.hub, user), expired := true)
    case Connect =>
      if w.phase.Offline? && !AtLimit(w.hub, user)
      then w.(hub := Registered(w.hub, user), phase := Connected(w.hub.nextId)) else w
    case Drain => DrainInto(user, w)
    case Replay(ok) => ReplayOne(w, ok)
    case StartWriting => if w.phase.Replaying? && w.phase.rest == [] then w.(phase := Writing(w.phase.id)) else w
    case Write(ok) => WriteOne(user, w, ok)
    case StopWriting => if w.phase.Writing? then w.(phase := Closing(w.phase.id)) else w
    case Disconnect =>
      if w.phase.Closing? then w.(hub := Unregistered(w.hub, user, w.phase.id), phase := Offline) else w
  }

  const Start := World(Hub(map[], 0, map[]), Offline, 0, [], [], false)

  function Run(user: Uuid, steps: seq<Step>): World {
    if steps == [] then Start else Apply(user, Run(user, steps[..|steps| - 1]), steps[|steps| - 1])
  }

  ghost predicate Ascending(q: seq<Message>) {
    forall i, j | 0 <= i < j < |q| :: q[i] < q[j]
  }

  ghost predicate Below(q: seq<Message>, bound: nat) {
    forall i | 0 <= i < |q| :: q[i] < bound
  }

  function Pending(w: World): seq<Message> {
    if w.phase.Replaying? then w.phase.rest else []
  }

  /** Everything on its way, oldest first: written, being replayed, buffered, in the channel. */
  function Line(user: Uuid, w: World): seq<Message> {
    w.written + Pending(w) + Reversed(Buffer(w.hub, user)) + Channel(w, user)
  }

  /** One connection at a time, the buffer used only without one (or not yet drained). */
  ghost predicate Consistent(user: Uuid, w: World) {
    && (w.phase.Offline? <==> user !in w.hub.clients)
    && (!w.phase.Offline? ==> |w.hub.clients[user]| == 1 && w.hub.clients[user][0].id == w.phase.id)
    && (w.phase.Replaying? || w.phase.Writing? || w.phase.Closing? ==> Buffer(w.hub, user) == [])
    && Ascending(Line(user, w)) && Below(Line(user, w), w.sent)
  }

  lemma AscendingSkips(a: seq<Message>, skipped: seq<Message>, b: seq<Message>, bound: nat)
    requires Ascending(a + skipped + b) && Below(a + skipped + b, bound)
    ensures Ascending(a + b) && Below(a + b, bound)
  {
    var q := a + skipped + b;
    assert forall i | 0 <= i < |a| :: (a + b)[i] == q[i];
    assert forall i | |a| <= i < |a + b| :: (a + b)[i] == q[i + |skipped|];
  }

  lemma AscendingGrows(q: seq<Message>, bound: nat)
    requires Ascending(q) && Below(q, bound)
    ensures Ascending(q + [bound]) && Below(q + [bound], bound + 1)
  {
  }

  lemma ReversedPush(buffer: seq<Message>, m: Message)
    ensures Reversed([m] + buffer) == Reversed(buffer) + [m]
  {
  }

  function LastOf(q: seq<Message>, n: nat): seq<Message> {
    if |q| <= n then q else q[|q| - n..]
  }

  /** Read backwards, a push appends the message and the trim keeps the last 51. */
  lemma PushedBackwards(buffer: seq<Message>, m: Message)
    ensures Reversed(Pushed(buffer, m)) == LastOf(Reversed(buffer) + [m], MESSAGE_BUFFER_SIZE + 1)
  {
    ReversedPush(buffer, m);
    var longer := [m] + buffer;
    if |longer| > MESSAGE_BUFFER_SIZE + 1 {
      var kept := longer[..MESSAGE_BUFFER_SIZE + 1];
      var r := Reversed(longer);
      assert Reversed(kept) == r[|r| - |kept|..];
    }
  }

  lemma NoBuffer()
    ensures Reversed([]) == [] && LastOf([], MESSAGE_BUFFER_SIZE + 1) == []
  {
  }

  lemma SendOnline(user: Uuid, w: World)
    requires Consistent(user, w) && user in w.hub.clients
    ensures Consistent(user, SendTo(user, w))
  {
    hide Reversed, Ascending, Below, Others;
    AscendingGrows(Line(user, w), w.sent);
    assert Line(user, SendTo(user, w)) == Line(user, w) + [w.sent];
  }

  lemma SendOffline(user: Uuid, w: World)
    requires Consistent(user, w) && user !in w.hub.clients
    ensures Consistent(user, SendTo(user, w))
  {
    hide Reversed, Pushed, Ascending, Below, Delivered, Others;
    var back := Reversed(Buffer(w.hub, user));
    AscendingGrows(Line(user, w), w.sent);
    PushedBackwards(Buffer(w.hub, user), w.sent);
    var all := back + [w.sent];
    var kept := LastOf(all, MESSAGE_BUFFER_SIZE + 1);
    KeptSuffix(w.written, back, w.sent);
    assert Line(user, w) == w.written + back;
    assert Line(user, SendTo(user, w)) == w.written + kept;
  }

  lemma KeptSuffix(written: seq<Message>, back: seq<Message>, bound: nat)
    ensures Ascending(written + back) && Below(written + back, bound) ==>
              var kept := LastOf(back + [bound], MESSAGE_BUFFER_SIZE + 1);
              Ascending(written + kept) && Below(written + kept, bound + 1)
  {
    hide Ascending, Below;
    if Ascending(written + back) && Below(written + back, bound) {
      AscendingGrows(written + back, bound);
      var all := back + [bound];
      var kept := LastOf(all, MESSAGE_BUFFER_SIZE + 1);
      var dropped := all[..|all| - |kept|];
      assert all == dropped + kept;
      assert (written + back) + [bound] == written + dropped + kept;
      AscendingSkips(written, dropped, kept, bound + 1);
    }
  }

  lemma DrainKeepsConsistent(user: Uuid, w: World)
    requires Consistent(user, w)
    ensures Consistent(user, DrainInto(user, w))
  {
    NoBuffer();
    hide Reversed, Ascending, Below;
    assert Line(user, DrainInto(user, w)) == Line(user, w);
  }

  /** The head of a stretch of the line is written, or lost. */
  lemma HeadLeaves(written: seq<Message>, before: seq<Message>, q: seq<Message>, after: seq<Message>, bound: nat)
    requires q != [] && before == []
    requires Ascending(written + before + q + after) && Below(written + before + q + after, bound)
    ensures (written + [q[0]]) + before + q[1..] + after == written + before + q + after
    ensures Ascending(written + before + q[1..] + after) && Below(written + before + q[1..] + after, bound)
  {
    hide Ascending, Below;
    assert q == [q[0]] + q[1..];
    assert written + before + q + after == written + [q[0]] + (q[1..] + after);
    AscendingSkips(written, [q[0]], q[1..] + after, bound);
    assert written + before + q[1..] + after == written + (q[1..] + after);
  }

  lemma ReplayKeepsConsistent(user: Uuid, w: World, ok: bool)
    requires Consistent(user, w)
    ensures Consistent(user, ReplayOne(w, ok))
  {
    hide Reversed, Ascending, Below, Line;
    if w.phase.Replaying? && w.phase.rest != [] {
      var rest, channel := w.phase.rest, Channel(w, user);
      LineReplaying(user, w, w.written, rest, channel);
      HeadLeaves(w.written, [], rest, channel, w.sent);
      var w' := ReplayOne(w, ok);
      LineReplaying(user, w', w'.written, rest[1..], channel);
    }
  }

  lemma LineReplaying(user: Uuid, w: World, written: seq<Message>, rest: seq<Message>, channel: seq<Message>)
    requires w.written == written && w.phase.Replaying? && w.phase.rest == rest && Channel(w, user) == channel
    requires Buffer(w.hub, user) == []
    ensures Line(user, w) == written + [] + rest + channel
  {
  }

  lemma LineWriting(user: Uuid, w: World, written: seq<Message>, channel: seq<Message>)
    requires w.written == written && !w.phase.Replaying? && Channel(w, user) == channel
    requires Buffer(w.hub, user) == []
    ensures Line(user, w) == written + [] + channel + []
  {
  }

  lemma WriteKeepsConsistent(user: Uuid, w: World, ok: bool)
    requires Consistent(user, w)
    ensures Consistent(user, WriteOne(user, w, ok))
  {
    if w.phase.Writing? && Channel(w, user) != [] {
      hide Reversed, Ascending, Below, Line;
      var channel := Channel(w, user);
      LineWriting(user, w, w.written, channel);
      HeadLeaves(w.written, [], channel, [], w.sent);
      var w' := WriteOne(user, w, ok);
      LineWriting(user, w', w'.written, channel[1..]);
    }
  }

  lemma ExpireKeepsConsistent(user: Uuid, w: World)
    requires Consistent(user, w)
    ensures Consistent(user, Apply(user, w, Expire))
  {
    NoBuffer();
    hide Reversed, Ascending, Below;
    var ahead, back, channel := w.written + Pending(w), Reversed(Buffer(w.hub, user)), Channel(w, user);
    assert Line(user, w) == ahead + back + channel;
    AscendingSkips(ahead, back, channel, w.sent);
    assert Line(user, Apply(user, w, Expire)) == ahead + channel;
  }

  lemma DisconnectKeepsConsistent(user: Uuid, w: World)
    requires Consistent(user, w)
    ensures Consistent(user, Apply(user, w, Disconnect))
  {
    NoBuffer();
    hide Reversed, Ascending, Below;
    if w.phase.Closing? {
      assert Line(user, w) == w.written + Channel(w, user) + [];
      AscendingSkips(w.written, Channel(w, user), [], w.sent);
      OnlyConnectionGoes(w.hub.clients[user], w.phase.id);
      assert Line(user, Apply(user, w, Disconnect)) == w.written + [];
    }
  }

  lemma StepKeepsConsistent(user: Uuid, w: World, step: Step)
    requires Consistent(user, w)
    ensures Consistent(user, Apply(user, w, step))
  {
    hide Reversed, Ascending, Below, SendTo, DrainInto, ReplayOne, WriteOne, Others, Delivered;
    match step {
      case Send => if user in w.hub.clients { SendOnline(user, w); } else { SendOffline(user, w); }
      case Expire => ExpireKeepsConsistent(user, w);
      case Drain => DrainKeepsConsistent(user, w);
      case Replay(ok) => ReplayKeepsConsistent(user, w, ok);
      case Write(ok) => WriteKeepsConsistent(user, w, ok);
      case Disconnect => DisconnectKeepsConsistent(user, w);
      case _ => assert Line(user, Apply(user, w, step)) == Line(user, w);
    }
  }

  lemma OnlyConnectionGoes(connections: seq<Connection>, id: nat)
    requires |connections| == 1 && connections[0].id == id
    ensures Others(connections, id) == []
  {
  }

  lemma {:induction false} RunsAreConsistent(user: Uuid, steps: seq<Step>)
    ensures Consistent(user, Run(user, steps))
  {
    hide Apply, Consistent;
    if steps == [] {
      StartIsConsistent(user);
    } else {
      RunsAreConsistent(user, steps[..|steps| - 1]);
      StepKeepsConsistent(user, Run(user, steps[..|steps| - 1]), steps[|steps| - 1]);
    }
  }

  lemma StartIsConsistent(user: Uuid)
    ensures Consistent(user, Start)
  {
  }

  /**
    Over any run of connects, disconnects, lost writes and expiries, what reaches the user's sockets is a part of what was
    sent, in the order it was sent, nothing twice.
   */
  lemma WrittenInSendOrder(user: Uuid, steps: seq<Step>)
    ensures var w := Run(user, steps); Ascending(w.written) && Below(w.written, w.sent)
  {
    RunsAreConsistent(user, steps);
    var w := Run(user, steps);
    hide Run;
    assert forall i | 0 <= i < |w.written| :: Line(user, w)[i] == w.written[i];
  }

  /** Without an expiry since the last drain the buffer is the last 51 messages buffered since. */
  ghost predicate BufferIsRecent(user: Uuid, w: World) {
    !w.expired ==> Reversed(Buffer(w.hub, user)) == LastOf(w.buffered, MESSAGE_BUFFER_SIZE + 1)
  }

  lemma SendKeepsRecent(user: Uuid, w: World)
    requires BufferIsRecent(user, w)
    ensures BufferIsRecent(user, SendTo(user, w))
  {
    PushedBackwards(Buffer(w.hub, user), w.sent);
    hide Reversed, Pushed, Delivered;
  }

  lemma StepKeepsRecent(user: Uuid, w: World, step: Step)
    requires BufferIsRecent(user, w)
    ensures BufferIsRecent(user, Apply(user, w, step))
  {
    NoBuffer();
    hide Reversed, Pushed, LastOf, Others, Delivered;
    if step.Send? {
      SendKeepsRecent(user, w);
    }
  }

  lemma {:induction false} RunsAreRecent(user: Uuid, steps: seq<Step>)
    ensures BufferIsRecent(user, Run(user, steps))
  {
    hide Apply, Reversed;
    if steps == [] {
      NoBuffer();
    } else {
      RunsAreRecent(user, steps[..|steps| - 1]);
      StepKeepsRecent(user, Run(user, steps[..|steps| - 1]), steps[|steps| - 1]);
    }
  }

  /** A drain hands over exactly the last min(n, 51) of the n messages buffered since the previous one, oldest first. */
  lemma DrainYieldsLastBuffered(user: Uuid, steps: seq<Step>)
    requires var w := Run(user, steps); w.phase.Connected? && !w.expired
    ensures var w := Run(user, steps);
            Apply(user, w, Drain).phase == Replaying(w.phase.id, LastOf(w.buffered, 51))
  {
    hide Run;
    RunsAreRecent(user, steps);
  }
}
