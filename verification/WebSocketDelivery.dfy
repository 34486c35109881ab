/** What a send, a connect and a drain do, and what becomes of every message: none is lost but where a step says so. */
module WebSocketDelivery {
  import opened Wrappers
  import opened Types
  import opened WebSockets

  // ---- the effect of each operation ----

  /** Every connection of a listed user gets the message last; an unlisted user's buffer gets it first; nothing else changes. */
  lemma SendReachesConnections(h: Hub, user: Uuid, m: Message)
    ensures var h' := Sent(h, user, m);
            && h'.nextId == h.nextId && h'.clients.Keys == h.clients.Keys
            && (forall u | u in h.clients && u != user :: h'.clients[u] == h.clients[u])
            && (forall u | u != user :: Buffer(h', u) == Buffer(h, u))
            && (user in h.clients ==>
                  && h'.buffers == h.buffers && |h'.clients[user]| == |h.clients[user]|
                  && forall i | 0 <= i < |h.clients[user]| ::
                       && h'.clients[user][i].id == h.clients[user][i].id
                       && h'.clients[user][i].channel == h.clients[user][i].channel + [m])
            && (user !in h.clients ==>
                  Buffer(h', user) == if |Buffer(h, user)| < 51 then [m] + Buffer(h, user) else [m] + Buffer(h, user)[..50])
  {
  }

  /** A new connection is listed last, with an empty channel; with five already, nothing happens. */
  lemma RegisterAdds(h: Hub, user: Uuid)
    ensures var h', was := Registered(h, user), if user in h.clients then h.clients[user] else [];
            && h'.buffers == h.buffers
            && (forall u | u != user :: (u in h'.clients <==> u in h.clients) && (u in h.clients ==> h'.clients[u] == h.clients[u]))
            && if |was| < 5
               then user in h'.clients && h'.clients[user] == was + [Connection(h.nextId, [])] && h'.nextId == h.nextId + 1
               else h' == h
  {
  }

  /** Only that connection goes, and the user's entry with the last one. */
  lemma UnregisterRemoves(h: Hub, user: Uuid, id: nat)
    ensures var h' := Unregistered(h, user, id);
            && h'.buffers == h.buffers && h'.nextId == h.nextId
            && (forall u | u != user :: (u in h'.clients <==> u in h.clients) && (u in h.clients ==> h'.clients[u] == h.clients[u]))
            && (user in h'.clients <==> user in h.clients && exists c :: c in h.clients[user] && c.id != id)
            && (user in h'.clients ==> forall c :: c in h'.clients[user] <==> c in h.clients[user] && c.id != id)
  {
    if user in h.clients {
      var left := Others(h.clients[user], id);
      assert left != [] ==> left[0] in left;
    }
  }

  lemma DrainEmpties(h: Hub, user: Uuid)
    ensures var h' := Drained(h, user);
            && h'.clients == h.clients && h'.nextId == h.nextId && Buffer(h', user) == []
            && forall u | u != user :: Buffer(h', u) == Buffer(h, u)
  {
  }

  // ---- no message is lost unseen ----

  /** How many messages a step loses: the oldest of a full buffer, an expired buffer, a refused write, a channel closed unread. */
  function Lost(user: Uuid, w: World, step: Step): nat {
    match step
    case Send => if user !in w.hub.clients && |Buffer(w.hub, user)| >= 51 then |Buffer(w.hub, user)| - 50 else 0
    case Expire => |Buffer(w.hub, user)|
    case Replay(ok) => if !ok && w.phase.Replaying? && w.phase.rest != [] then 1 else 0
    case Write(ok) => if !ok && w.phase.Writing? && Channel(w, user) != [] then 1 else 0
    case Disconnect => if w.phase.Closing? then |Channel(w, user)| else 0
    case _ => 0
  }

  function TotalLost(user: Uuid, steps: seq<Step>): nat {
    if steps == [] then 0
    else
      var front, last := steps[..|steps| - 1], steps[|steps| - 1];
      TotalLost(user, front) + Lost(user, Run(user, front), last)
  }

  function Sends(steps: seq<Step>): nat {
    if steps == [] then 0 else Sends(steps[..|steps| - 1]) + if steps[|steps| - 1].Send? then 1 else 0
  }

  function Length(user: Uuid, w: World): nat {
    |w.written| + |Pending(w)| + |Buffer(w.hub, user)| + |Channel(w, user)|
  }

  lemma LineLength(user: Uuid, w: World)
    ensures |Line(user, w)| == Length(user, w)
  {
    hide Reversed;
  }

  lemma StepConserves(user: Uuid, w: World, step: Step)
    requires Consistent(user, w)
    ensures Length(user, Apply(user, w, step)) + Lost(user, w, step) == Length(user, w) + if step.Send? then 1 else 0
    ensures Apply(user, w, step).sent == w.sent + if step.Send? then 1 else 0
  {
    hide Line, Ascending, Below, Reversed;
    if step.Disconnect? && w.phase.Closing? {
      OnlyConnectionGoes(w.hub.clients[user], w.phase.id);
    }
    hide Others;
  }

  /** Over any run, every message sent is written, on its way, or one of those counted as lost. */
  lemma {:induction false} Conservation(user: Uuid, steps: seq<Step>)
    ensures |Line(user, Run(user, steps))| + TotalLost(user, steps) == Sends(steps)
    ensures Run(user, steps).sent == Sends(steps)
  {
    hide Apply, Lost, Length, Line;
    if steps == [] {
      NothingSent(user);
    } else {
      var front, last := steps[..|steps| - 1], steps[|steps| - 1];
      Conservation(user, front);
      RunsAreConsistent(user, front);
      StepConserves(user, Run(user, front), last);
      LineLength(user, Run(user, front));
      LineLength(user, Run(user, steps));
    }
  }

  lemma NothingSent(user: Uuid)
    ensures Line(user, Start) == []
  {
  }

  /** Messages are numbered as they are sent. */
  function Numbers(lo: nat, hi: nat): (q: seq<Message>)
    requires lo <= hi
    ensures |q| == hi - lo && forall i | 0 <= i < |q| :: q[i] == lo + i
    decreases hi - lo
  {
    if lo == hi then [] else [lo] + Numbers(lo + 1, hi)
  }

  lemma {:induction false} AscendingFromBelow(q: seq<Message>, bound: nat, i: nat)
    requires Ascending(q) && Below(q, bound) && i < |q|
    ensures i <= q[i] <= bound - |q| + i
    decreases i
  {
    ClimbsAbove(q, i);
    ClimbsBelow(q, bound, i);
  }

  lemma {:induction false} ClimbsAbove(q: seq<Message>, i: nat)
    requires Ascending(q) && i < |q|
    ensures i <= q[i]
  {
    if i > 0 {
      ClimbsAbove(q, i - 1);
    }
  }

  lemma {:induction false} ClimbsBelow(q: seq<Message>, bound: nat, i: nat)
    requires Ascending(q) && Below(q, bound) && i < |q|
    ensures q[i] <= bound - |q| + i
    decreases |q| - i
  {
    if i < |q| - 1 {
      ClimbsBelow(q, bound, i + 1);
    }
  }

  /** No step of a run loses anything exactly when every message sent is written or on its way, in order. */
  lemma NothingLostExactly(user: Uuid, steps: seq<Step>)
    ensures TotalLost(user, steps) == 0 <==> Line(user, Run(user, steps)) == Numbers(0, Sends(steps))
  {
    hide Line, Apply, Run, Lost;
    Conservation(user, steps);
    RunsAreConsistent(user, steps);
    var q, n := Line(user, Run(user, steps)), Sends(steps);
    if TotalLost(user, steps) == 0 {
      forall i | 0 <= i < |q|
        ensures q[i] == i
      {
        AscendingFromBelow(q, n, i);
      }
      assert q == Numbers(0, n);
    }
  }

  /** When nothing was lost and nothing is on its way, every message sent has been written, in the order sent. */
  lemma AllWritten(user: Uuid, steps: seq<Step>)
    requires TotalLost(user, steps) == 0
    requires var w := Run(user, steps); Pending(w) == [] && Buffer(w.hub, user) == [] && Channel(w, user) == []
    ensures Run(user, steps).written == Numbers(0, Sends(steps))
  {
    NothingLostExactly(user, steps);
    NoBuffer();
    hide Run, Reversed;
    var w := Run(user, steps);
    assert Line(user, w) == w.written;
  }

  // ---- while the connection is up ----

  predicate KeepsWriting(step: Step) {
    step.Send? || step == Write(true)
  }

  function From(user: Uuid, w: World, steps: seq<Step>): World {
    if steps == [] then w else Apply(user, From(user, w, steps[..|steps| - 1]), steps[|steps| - 1])
  }

  ghost predicate Up(user: Uuid, w: World) {
    w.phase.Writing? && user in w.hub.clients && |w.hub.clients[user]| == 1
  }

  lemma UpStep(user: Uuid, w: World, step: Step)
    requires Up(user, w) && KeepsWriting(step)
    ensures var w' := Apply(user, w, step);
            && Up(user, w') && Buffer(w'.hub, user) == Buffer(w.hub, user)
            && w'.sent == w.sent + (if step.Send? then 1 else 0)
            && w'.written + Channel(w', user) == w.written + Channel(w, user) + (if step.Send? then [w.sent] else [])
            && |w'.written| == |w.written| + if !step.Send? && Channel(w, user) != [] then 1 else 0
  {
    if step.Send? {
      SendReachesConnections(w.hub, user, w.sent);
    }
    hide Sent;
    if !step.Send? && Channel(w, user) != [] {
      var q := Channel(w, user);
      assert q == [q[0]] + q[1..];
    }
  }

  lemma NumbersSnoc(lo: nat, hi: nat)
    requires lo <= hi
    ensures Numbers(lo, hi + 1) == Numbers(lo, hi) + [hi]
  {
  }

  /** As long as the socket takes what it is given, each message sent stays queued until it is written, in order. */
  lemma {:induction false} SentWhileUpIsKept(user: Uuid, w: World, steps: seq<Step>)
    requires Up(user, w) && forall step | step in steps :: KeepsWriting(step)
    ensures var w' := From(user, w, steps);
            && Up(user, w') && w'.sent == w.sent + Sends(steps)
            && w'.written + Channel(w', user) == w.written + Channel(w, user) + Numbers(w.sent, w'.sent)
  {
    hide Apply, Up, Channel;
    if steps == [] {
      assert Numbers(w.sent, w.sent) == [];
      var all := w.written + Channel(w, user);
      assert all + [] == all;
    } else {
      var front, last := steps[..|steps| - 1], steps[|steps| - 1];
      SentWhileUpIsKept(user, w, front);
      var w1 := From(user, w, front);
      UpStep(user, w1, last);
      if last.Send? {
        NumbersSnoc(w.sent, w1.sent);
        var all, more := w.written + Channel(w, user), Numbers(w.sent, w1.sent);
        assert (all + more) + [w1.sent] == all + (more + [w1.sent]);
      } else {
        var all := w.written + Channel(w, user) + Numbers(w.sent, w1.sent);
        assert all + [] == all;
      }
    }
  }

  function Writes(n: nat): (steps: seq<Step>)
    ensures |steps| == n && forall step | step in steps :: step == Write(true)
  {
    if n == 0 then [] else Writes(n - 1) + [Write(true)]
  }

  /** Writing as often as there are messages in the channel writes them all. */
  lemma {:induction false} ChannelIsWritten(user: Uuid, w: World, n: nat)
    requires Up(user, w) && n <= |Channel(w, user)|
    ensures var w' := From(user, w, Writes(n));
            Up(user, w') && w'.written + Channel(w', user) == w.written + Channel(w, user) && |w'.written| == |w.written| + n
  {
    hide Apply, Up, Channel;
    if n == 0 {
    } else {
      ChannelIsWritten(user, w, n - 1);
      var w1 := From(user, w, Writes(n - 1));
      assert Writes(n)[..n - 1] == Writes(n - 1);
      assert |w1.written + Channel(w1, user)| == |w1.written| + |Channel(w1, user)|;
      assert |w.written + Channel(w, user)| == |w.written| + |Channel(w, user)|;
      UpStep(user, w1, Write(true));
      var all := w1.written + Channel(w1, user);
      assert all + [] == all;
    }
  }

  /** A message sent while the connection is up is the last thing written once the channel has been worked off. */
  lemma SentIsWritten(user: Uuid, w: World)
    requires Up(user, w)
    ensures var w1 := Apply(user, w, Send);
            var w2 := From(user, w1, Writes(|Channel(w1, user)|));
            && Channel(w2, user) == [] && w2.written == w.written + Channel(w, user) + [w.sent]
  {
    UpStep(user, w, Send);
    hide Apply, Up;
    var w1 := Apply(user, w, Send);
    ChannelIsWritten(user, w1, |Channel(w1, user)|);
    var w2 := From(user, w1, Writes(|Channel(w1, user)|));
    assert |w2.written + Channel(w2, user)| == |w1.written| + |Channel(w1, user)|;
    assert w2.written + [] == w2.written;
  }
}
