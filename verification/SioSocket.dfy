// A socket of a Socket.IO client: its queue, its connection state and its pending acknowledgements.
module SioSocket {
  import opened Sequences

  datatype Kind = ConnectPacket | DisconnectPacket | EventPacket | AckPacket | ErrorPacket

  datatype Packet = Packet(kind: Kind, nsp: string, packId: int, body: string)

  // Something that application code asks of the socket.
  datatype Request = Emit(body: string, ack: bool) | Close

  // ----- what the queue is for

  // `alive`: the socket still has its client. `accepted`: all that send_packet took, in order.
  // `handed`: what of it the client got; `discarded`: what was thrown away instead.
  datatype View = View(alive: bool, connected: bool, queue: seq<Packet>, handed: seq<Packet>,
                       discarded: seq<Packet>, accepted: seq<Packet>)

  function Drained(v: View): View { v.(handed := v.handed + v.queue, queue := []) }

  function Sent(v: View, p: Packet): View {
    if !v.alive then v
    else if v.connected then
      var d := Drained(v);
      d.(handed := d.handed + [p], accepted := v.accepted + [p])
    else v.(queue := v.queue + [p], accepted := v.accepted + [p])
  }

  function SentAll(v: View, ps: seq<Packet>): View
    decreases |ps|
  {
    if ps == [] then v else SentAll(Sent(v, ps[0]), ps[1..])
  }

  function ConnectedStep(v: View, ps: seq<Packet>): View {
    if v.connected then v else Drained(SentAll(v.(connected := true), ps))
  }

  function Emptied(v: View): View { v.(queue := [], discarded := v.discarded + v.queue) }

  function Disconnected(v: View): View {
    if v.alive && v.connected then Emptied(v.(connected := false)) else v
  }

  function Closed(v: View): View {
    if v.alive then Emptied(v.(alive := false, connected := false)) else v
  }

  // Every packet is in one place, and in order.
  predicate Balanced(v: View) { v.accepted == v.handed + v.discarded + v.queue }

  // What holds between any two steps.
  predicate Settled(v: View) {
    && Balanced(v)
    && (v.connected ==> v.alive && v.queue == [])
    && (v.alive ==> v.discarded == [])
    && (!v.alive ==> v.queue == [])
  }

  lemma SentBalanced(v: View, p: Packet)
    requires Balanced(v) && (v.alive ==> v.discarded == []) && (!v.alive ==> v.queue == [])
    ensures Balanced(Sent(v, p))
  {
    if v.alive && v.connected {
      assert v.handed + v.discarded + v.queue + [p] == (v.handed + v.queue + [p]) + [] + [];
    } else if v.alive {
      assert v.handed + v.discarded + v.queue + [p] == v.handed + v.discarded + (v.queue + [p]);
    }
  }

  lemma SentSettled(v: View, p: Packet)
    requires Settled(v)
    ensures Settled(Sent(v, p))
  {
    SentBalanced(v, p);
  }

  lemma {:induction false} SentAllBalanced(v: View, ps: seq<Packet>)
    requires Balanced(v) && v.alive && v.discarded == []
    ensures var w := SentAll(v, ps); Balanced(w) && w.alive && w.discarded == [] && w.connected == v.connected
    ensures SentAll(v, ps).accepted == v.accepted + ps
    decreases |ps|
  {
    if ps != [] {
      SentBalanced(v, ps[0]);
      SentAllBalanced(Sent(v, ps[0]), ps[1..]);
      assert v.accepted + [ps[0]] + ps[1..] == v.accepted + ps;
    }
  }

  // What waited goes first, then what the listener of the connection sends: nothing overtakes.
  lemma ConnectedSettled(v: View, ps: seq<Packet>)
    requires Settled(v) && v.alive
    ensures Settled(ConnectedStep(v, ps))
    ensures !v.connected ==> ConnectedStep(v, ps).handed == v.handed + v.queue + ps
  {
    if !v.connected {
      var w := SentAll(v.(connected := true), ps);
      SentAllBalanced(v.(connected := true), ps);
      assert w.accepted == w.handed + w.queue;
    }
  }

  // Disconnecting throws nothing away.
  lemma DisconnectedKeeps(v: View)
    requires Settled(v)
    ensures Disconnected(v) == v.(connected := v.connected && !v.alive)
    ensures Settled(Disconnected(v))
  {
    if v.alive && v.connected {
      assert v.discarded + v.queue == v.discarded;
    }
  }

  lemma ClosedSettled(v: View)
    requires Settled(v)
    ensures Settled(Closed(v))
    ensures v.alive ==> Closed(v).discarded == v.queue
  {
    if v.alive {
      assert v.handed + v.discarded + v.queue == v.handed + (v.discarded + v.queue) + [];
    }
  }

  // ----- every run

  datatype Event =
    | SendEvent(p: Packet)
    | ConnectedEvent(ps: seq<Packet>)
    | DisconnectedEvent
    | ClosedEvent

  function Step(v: View, e: Event): View {
    match e
    case SendEvent(p) => Sent(v, p)
    case ConnectedEvent(ps) => if v.alive then ConnectedStep(v, ps) else v
    case DisconnectedEvent => Disconnected(v)
    case ClosedEvent => Closed(v)
  }

  function Run(v: View, es: seq<Event>): View
    decreases |es|
  {
    if es == [] then v else Run(Step(v, es[0]), es[1..])
  }

  const FRESH := View(true, false, [], [], [], [])

  lemma StepSettled(v: View, e: Event)
    requires Settled(v)
    ensures Settled(Step(v, e))
    ensures v.handed <= Step(v, e).handed && v.accepted <= Step(v, e).accepted
  {
    match e {
      case SendEvent(p) => SentSettled(v, p);
      case ConnectedEvent(ps) =>
        if v.alive {
          ConnectedSettled(v, ps);
          SentAllBalanced(v.(connected := true), ps);
        }
      case DisconnectedEvent => DisconnectedKeeps(v);
      case ClosedEvent => ClosedSettled(v);
    }
  }

  lemma {:induction false} RunSettled(v: View, es: seq<Event>)
    requires Settled(v)
    ensures Settled(Run(v, es))
    ensures v.handed <= Run(v, es).handed && v.accepted <= Run(v, es).accepted
    decreases |es|
  {
    if es != [] {
      StepSettled(v, es[0]);
      RunSettled(Step(v, es[0]), es[1..]);
    }
  }

  // In every run the client gets the accepted packets in order and without a gap: all of them but
  // those that wait, and once the socket is closed all but those that then waited.
  lemma HandedInOrder(es: seq<Event>)
    ensures var v := Run(FRESH, es);
            && v.handed <= v.accepted
            && v.accepted == v.handed + v.discarded + v.queue
            && (v.alive ==> v.discarded == [])
            && (v.connected ==> v.handed == v.accepted)
  {
    RunSettled(FRESH, es);
    var v := Run(FRESH, es);
    assert v.handed + v.discarded + v.queue == v.handed + (v.discarded + v.queue);
  }

  // A packet that waits is handed over as soon as the socket is connected, unless it is closed first.
  lemma WaitingIsDelivered(es: seq<Event>, ps: seq<Packet>)
    requires Run(FRESH, es).alive
    ensures Run(FRESH, es).accepted <= Step(Run(FRESH, es), ConnectedEvent(ps)).handed
  {
    var v := Run(FRESH, es);
    RunSettled(FRESH, es);
    ConnectedSettled(v, ps);
    if !v.connected {
      assert v.handed + v.discarded + v.queue == v.handed + v.queue;
    }
  }

  // ----- what application code asks for

  function NextId(id: nat, r: Request): nat { if r.Emit? && r.ack then id + 1 else id }

  // The packets that a request comes to.
  function Packets(nsp: string, id: nat, connected: bool, r: Request): seq<Packet> {
    match r
    case Emit(body, ack) => [Packet(EventPacket, nsp, if ack then id else -1, body)]
    case Close => if connected then [Packet(DisconnectPacket, nsp, -1, "")] else []
  }

  function AllPackets(nsp: string, id: nat, connected: bool, rs: seq<Request>): seq<Packet>
    decreases |rs|
  {
    if rs == [] then []
    else Packets(nsp, id, connected, rs[0]) + AllPackets(nsp, NextId(id, rs[0]), connected, rs[1..])
  }

  lemma {:induction false} SentAllAppend(v: View, ps: seq<Packet>, qs: seq<Packet>)
    ensures SentAll(v, ps + qs) == SentAll(SentAll(v, ps), qs)
    decreases |ps|
  {
    if ps == [] {
      assert ps + qs == qs;
    } else {
      assert (ps + qs)[1..] == ps[1..] + qs;
      SentAllAppend(Sent(v, ps[0]), ps[1..], qs);
    }
  }

  lemma {:induction false} SentAllFlags(v: View, ps: seq<Packet>)
    ensures SentAll(v, ps).alive == v.alive && SentAll(v, ps).connected == v.connected
    ensures !v.alive ==> SentAll(v, ps) == v
    decreases |ps|
  {
    if ps != [] {
      SentAllFlags(Sent(v, ps[0]), ps[1..]);
    }
  }

  // What a packet of the server does to the socket.
  ghost function Received(v: View, nsp: string, id: nat, p: Packet, named: bool, acks: set<nat>,
                          rs: seq<Request>, answer: string): View
  {
    var asked := AllPackets(nsp, id, v.connected, rs);
    if !v.alive || p.nsp != nsp then v
    else
      match p.kind
      case ConnectPacket => ConnectedStep(v, AllPackets(nsp, id, true, rs))
      case DisconnectPacket => Closed(v)
      case EventPacket =>
        if !named then v
        else SentAll(v, asked + if p.packId >= 0 then [Packet(AckPacket, nsp, p.packId, answer)] else [])
      case AckPacket => if 0 <= p.packId && p.packId in acks then SentAll(v, asked) else v
      case ErrorPacket => SentAll(v, asked)
  }

  // Whatever the server sends and the application asks for in reply, nothing that was accepted is
  // lost or overtaken.
  lemma ReceivedSettled(v: View, nsp: string, id: nat, p: Packet, named: bool, acks: set<nat>,
                        rs: seq<Request>, answer: string)
    requires Settled(v)
    ensures Settled(Received(v, nsp, id, p, named, acks, rs, answer))
  {
    var asked := AllPackets(nsp, id, v.connected, rs);
    if v.alive && p.nsp == nsp {
      match p.kind {
        case ConnectPacket => ConnectedSettled(v, AllPackets(nsp, id, true, rs));
        case DisconnectPacket => ClosedSettled(v);
        case EventPacket =>
          SentAllSettled(v, asked + if p.packId >= 0 then [Packet(AckPacket, nsp, p.packId, answer)] else []);
        case _ => SentAllSettled(v, asked);
      }
    }
  }

  // ----- what each packet of the server does

  // Packets sent by a live socket: at once behind all that waits, or behind it in the queue.
  lemma {:induction false} SentAllPlaces(v: View, ps: seq<Packet>)
    requires Settled(v) && v.alive
    ensures SentAll(v, ps) ==
            if v.connected then View(true, true, [], v.handed + ps, [], v.accepted + ps)
            else View(true, false, v.queue + ps, v.handed, [], v.accepted + ps)
    decreases |ps|
  {
    if ps == [] {
      assert v.handed + [] == v.handed && v.queue + [] == v.queue && v.accepted + [] == v.accepted;
    } else {
      var w := Sent(v, ps[0]);
      SentSettled(v, ps[0]);
      SentAllPlaces(w, ps[1..]);
      assert ps == [ps[0]] + ps[1..];
      assert v.connected ==> v.handed + [] == v.handed && w.handed + ps[1..] == v.handed + ps;
      assert !v.connected ==> w.queue + ps[1..] == v.queue + ps;
      assert w.accepted + ps[1..] == v.accepted + ps;
    }
  }

  // A connect packet connects the socket: what waited is handed over, then what the listener sends.
  // One that comes again does nothing.
  lemma ConnectReceived(v: View, nsp: string, id: nat, p: Packet, named: bool, acks: set<nat>,
                        rs: seq<Request>, answer: string)
    requires Settled(v) && v.alive && p.nsp == nsp && p.kind == ConnectPacket
    ensures Received(v, nsp, id, p, named, acks, rs, answer) ==
            if v.connected then v
            else
              var asked := AllPackets(nsp, id, true, rs);
              View(true, true, [], v.handed + v.queue + asked, [], v.accepted + asked)
  {
    if !v.connected {
      var asked := AllPackets(nsp, id, true, rs);
      ConnectedSettled(v, asked);
      SentAllBalanced(v.(connected := true), asked);
      SentAllFlags(v.(connected := true), asked);
    }
  }

  // A disconnect packet ends the socket, and what waited is discarded.
  lemma DisconnectReceived(v: View, nsp: string, id: nat, p: Packet, named: bool, acks: set<nat>,
                           rs: seq<Request>, answer: string)
    requires Settled(v) && v.alive && p.nsp == nsp && p.kind == DisconnectPacket
    ensures Received(v, nsp, id, p, named, acks, rs, answer) ==
            View(false, false, [], v.handed, v.queue, v.accepted)
  {
    assert [] + v.queue == v.queue;
  }

  // What the application sends in reply to a packet that is no connect or disconnect packet: what a
  // listener asks for, if one runs, and behind it the answer to an event that has a number.
  function Replies(nsp: string, id: nat, connected: bool, p: Packet, named: bool, acks: set<nat>,
                   rs: seq<Request>, answer: string): seq<Packet>
  {
    var asked := AllPackets(nsp, id, connected, rs);
    if p.kind == EventPacket then
      if !named then []
      else if p.packId < 0 then asked
      else asked + [Packet(AckPacket, nsp, p.packId, answer)]
    else if p.kind == AckPacket then (if 0 <= p.packId && p.packId in acks then asked else [])
    else asked
  }

  lemma ReplyReceived(v: View, nsp: string, id: nat, p: Packet, named: bool, acks: set<nat>,
                      rs: seq<Request>, answer: string)
    requires Settled(v) && v.alive && p.nsp == nsp && p.kind in {EventPacket, AckPacket, ErrorPacket}
    ensures var replies := Replies(nsp, id, v.connected, p, named, acks, rs, answer);
            Received(v, nsp, id, p, named, acks, rs, answer) ==
            if v.connected then View(true, true, [], v.handed + replies, [], v.accepted + replies)
            else View(true, false, v.queue + replies, v.handed, [], v.accepted + replies)
  {
    var replies := Replies(nsp, id, v.connected, p, named, acks, rs, answer);
    SentAllPlaces(v, replies);
    assert AllPackets(nsp, id, v.connected, rs) + [] == AllPackets(nsp, id, v.connected, rs);
    if replies == [] {
      assert v.handed + [] == v.handed && v.queue + [] == v.queue && v.accepted + [] == v.accepted;
    }
  }

  // A packet of another namespace does nothing, and none does anything once the client is gone.
  lemma ForeignReceived(v: View, nsp: string, id: nat, p: Packet, named: bool, acks: set<nat>,
                        rs: seq<Request>, answer: string)
    requires p.nsp != nsp || !v.alive
    ensures Received(v, nsp, id, p, named, acks, rs, answer) == v
  {}

  // ----- what the application's requests come to

  // How many of the requests are emissions that want an acknowledgement.
  function Wanted(rs: seq<Request>): nat {
    if rs == [] then 0 else Wanted(rs[..|rs| - 1]) + if rs[|rs| - 1].Emit? && rs[|rs| - 1].ack then 1 else 0
  }

  lemma {:induction false} WantedRest(rs: seq<Request>, i: nat)
    requires 0 < i <= |rs|
    ensures Wanted(rs[..i]) == Wanted(rs[..1]) + Wanted(rs[1..][..i - 1])
  {
    if i == 1 {
      assert rs[1..][..0] == [];
    } else {
      WantedRest(rs, i - 1);
      assert rs[..i][..i - 1] == rs[..i - 1] && rs[1..][..i - 1][..i - 2] == rs[1..][..i - 2];
      assert rs[..i][i - 1] == rs[i - 1] == rs[1..][..i - 1][i - 2];
    }
  }

  // In a connected socket every request comes to one packet: an event with its body, numbered behind
  // those before it if it wants an acknowledgement, or a disconnect packet.
  lemma {:induction false} RequestsWhileConnected(nsp: string, id: nat, rs: seq<Request>, i: nat)
    requires i < |rs|
    ensures |AllPackets(nsp, id, true, rs)| == |rs|
    ensures AllPackets(nsp, id, true, rs)[i] ==
            match rs[i]
            case Emit(body, ack) =>
              Packet(EventPacket, nsp, if ack then id + Wanted(rs[..i]) else -1, body)
            case Close => Packet(DisconnectPacket, nsp, -1, "")
    decreases |rs|
  {
    var rest := rs[1..];
    assert rs[..1] == [rs[0]] && [rs[0]][..0] == [] && rs[..0] == [];
    assert NextId(id, rs[0]) == id + Wanted(rs[..1]);
    if |rest| > 0 {
      RequestsWhileConnected(nsp, NextId(id, rs[0]), rest, if i == 0 then 0 else i - 1);
      if i > 0 {
        WantedRest(rs, i);
        assert rest[i - 1] == rs[i];
      }
    }
  }

  function Emissions(rs: seq<Request>): seq<Request> {
    if rs == [] then [] else (if rs[0].Emit? then [rs[0]] else []) + Emissions(rs[1..])
  }

  // In one that is not connected, to close comes to nothing, and the rest is as if it were connected.
  lemma {:induction false} RequestsWhileOffline(nsp: string, id: nat, rs: seq<Request>)
    ensures AllPackets(nsp, id, false, rs) == AllPackets(nsp, id, true, Emissions(rs))
    decreases |rs|
  {
    if rs != [] {
      RequestsWhileOffline(nsp, NextId(id, rs[0]), rs[1..]);
      if rs[0].Emit? {
        var es := Emissions(rs);
        assert es[0] == rs[0] && es[1..] == Emissions(rs[1..]);
      } else {
        assert Emissions(rs) == Emissions(rs[1..]);
      }
    }
  }

  lemma {:induction false} SentAllSettled(v: View, ps: seq<Packet>)
    requires Settled(v)
    ensures Settled(SentAll(v, ps))
    decreases |ps|
  {
    if ps != [] {
      SentSettled(v, ps[0]);
      SentAllSettled(Sent(v, ps[0]), ps[1..]);
    }
  }

  lemma GainedTwice<T>(a: seq<T>, b: seq<T>, c: seq<T>, sent: seq<T>)
    requires a <= b <= c
    ensures sent + b[|a|..] + c[|b|..] == sent + c[|a|..]
  {}

  // ----- the timer

  // What the connection timer calls: the timeout of a connect packet, or the close that follows a
  // disconnect packet.
  datatype Wait = ConnectTimeout | CloseWait

  // What waits on the timer, and the waits that were cancelled and are still to be called with an error.
  datatype Timers = Timers(wait: Option<Wait>, cancelled: seq<Wait>)

  // Cancelling the timer, replacing it and setting it again all cancel its wait.
  function Ended(t: Timers): Timers {
    Timers(None, t.cancelled + if t.wait.Some? then [t.wait.value] else [])
  }

  function Armed(t: Timers, w: Wait): Timers { Ended(t).(wait := Some(w)) }

  predicate WillClose(t: Timers) { t.wait == Some(CloseWait) || CloseWait in t.cancelled }

  // All waits that are still to be called, in the order in which they were put on the timer.
  function Outstanding(t: Timers): seq<Wait> { t.cancelled + if t.wait.Some? then [t.wait.value] else [] }

  // No wait is forgotten when the timer is cancelled or set again.
  lemma WaitsOutstand(t: Timers, w: Wait)
    ensures Outstanding(Ended(t)) == Outstanding(t) && Ended(t).wait == None
    ensures Outstanding(Armed(t, w)) == Outstanding(t) + [w] && Armed(t, w).wait == Some(w)
  {}

  // ----- the objects

  class Client {
    var connectionOpen: bool
    var sent: seq<Packet>

    constructor (connectionOpen: bool)
      ensures this.connectionOpen == connectionOpen && sent == []
    {
      this.connectionOpen, sent := connectionOpen, [];
    }

    method Send(p: Packet)
      modifies this`sent
      ensures sent == old(sent) + [p]
    {
      sent := sent + [p];
    }
  }

  // The number that the next emission with an acknowledgement gets; all sockets share it.
  class EventIds {
    var next: nat

    constructor ()
      ensures next == 1
    {
      next := 1;
    }
  }

  class Socket {
    const nsp: string
    const ids: EventIds
    var client: Client?
    var connected: bool
    var timers: Timers
    var queue: seq<Packet>
    var acks: set<nat>
    ghost const owner: Client
    ghost var answered: set<nat>
    ghost var handed: seq<Packet>
    ghost var discarded: seq<Packet>
    ghost var accepted: seq<Packet>

    ghost function Now(): View
      reads this
    {
      View(client != null, connected, queue, handed, discarded, accepted)
    }

    ghost predicate Owned()
      reads this
    {
      client == null || client == owner
    }

    constructor (client: Client, nsp: string, ids: EventIds)
      modifies client`sent
      ensures Now() == FRESH && Owned() && owner == client && this.nsp == nsp && this.ids == ids
      ensures acks == answered == {}
      ensures client.sent ==
              old(client.sent) + if client.connectionOpen then [Packet(ConnectPacket, nsp, -1, "")] else []
      ensures timers == Timers(if client.connectionOpen then Some(ConnectTimeout) else None, [])
    {
      this.client, owner, this.nsp, this.ids := client, client, nsp, ids;
      connected, timers, queue, acks := false, Timers(None, []), [], {};
      handed, discarded, accepted, answered := [], [], [], {};
      new;
      if client.connectionOpen {
        SendConnect();
      }
    }

    method SendConnect()
      requires Owned()
      modifies this`timers, owner`sent
      ensures client == null ==> timers == old(timers) && owner.sent == old(owner.sent)
      ensures client != null ==> timers == Armed(old(timers), ConnectTimeout)
      ensures client != null ==> owner.sent == old(owner.sent) + [Packet(ConnectPacket, nsp, -1, "")]
    {
      if client == null { return; }
      client.Send(Packet(ConnectPacket, nsp, -1, ""));
      timers := Armed(timers, ConnectTimeout);
    }

    // Sends all that waits.
    method Drain()
      requires Owned() && client != null
      modifies this`queue, this`handed, owner`sent
      ensures Now() == Drained(old(Now()))
      ensures owner.sent == old(owner.sent) + old(queue)
    {
      while queue != []
        invariant handed + queue == old(handed) + old(queue)
        invariant owner.sent + queue == old(owner.sent) + old(queue)
        decreases |queue|
      {
        var front := queue[0];
        queue := queue[1..];
        client.Send(front);
        handed := handed + [front];
      }
    }

    // What the client gets, in the same order as the socket notes it.
    method SendPacket(p: Packet)
      requires Owned()
      modifies this`queue, this`handed, this`accepted, owner`sent
      ensures Now() == Sent(old(Now()), p)
      ensures Gained(old(handed), old(owner.sent))
    {
      if client == null { return; }
      accepted := accepted + [p];
      if connected {
        Drain();
        client.Send(p);
        handed := handed + [p];
      } else {
        queue := queue + [p];
      }
    }

    // Since then, the client got exactly what `handed` gained.
    ghost predicate Gained(wasHanded: seq<Packet>, wasSent: seq<Packet>)
      reads this, owner
    {
      wasHanded <= handed && owner.sent == wasSent + handed[|wasHanded|..]
    }

    // Every callback waits or was called, and no number is given out twice.
    ghost predicate AcksKept()
      reads this, ids
    {
      && acks !! answered
      && (forall id | id in acks :: id < ids.next)
      && (forall id | id in answered :: id < ids.next)
    }

    method Do(r: Request)
      requires Owned() && AcksKept()
      modifies this`queue, this`handed, this`accepted, this`acks, this`timers, ids, owner`sent
      ensures AcksKept() && Gained(old(handed), old(owner.sent))
      ensures client == null ==> Now() == old(Now()) && acks == old(acks) && ids.next == old(ids.next)
      ensures client != null ==>
                && Now() == SentAll(old(Now()), Packets(nsp, old(ids.next), connected, r))
                && ids.next == NextId(old(ids.next), r)
                && acks == old(acks) + if r.Emit? && r.ack then {old(ids.next)} else {}
      ensures timers == if client != null && connected && r.Close? then Armed(old(timers), CloseWait) else old(timers)
    {
      if client == null { return; }
      match r {
        case Emit(body, ack) =>
          var packId: int := -1;
          if ack {
            packId := ids.next;
            ids.next := ids.next + 1;
            acks := acks + {packId};
          }
          SendPacket(Packet(EventPacket, nsp, packId, body));
        case Close =>
          if connected {
            SendPacket(Packet(DisconnectPacket, nsp, -1, ""));
            timers := Armed(timers, CloseWait);
          }
      }
    }

    // The application's listener runs.
    method Listen(rs: seq<Request>)
      requires Owned() && AcksKept()
      modifies this`queue, this`handed, this`accepted, this`acks, this`timers, ids, owner`sent
      ensures AcksKept() && Gained(old(handed), old(owner.sent))
      ensures client == null ==> Now() == old(Now()) && acks == old(acks) && timers == old(timers)
      ensures client != null ==> Now() == SentAll(old(Now()), AllPackets(nsp, old(ids.next), connected, rs))
      ensures old(acks) <= acks
      ensures WillClose(old(timers)) || (client != null && connected && Close in rs) ==> WillClose(timers)
      decreases |rs|
    {
      if rs == [] { return; }
      ghost var v, id, was, sent := Now(), ids.next, handed, owner.sent;
      Do(rs[0]);
      ghost var middle := handed;
      SentAllFlags(v, Packets(nsp, id, connected, rs[0]));
      Listen(rs[1..]);
      GainedTwice(was, middle, handed, sent);
      SentAllAppend(v, Packets(nsp, id, connected, rs[0]), AllPackets(nsp, NextId(id, rs[0]), connected, rs[1..]));
    }

    method OnConnected(rs: seq<Request>)
      requires Owned() && AcksKept() && client != null
      modifies this, ids, owner`sent
      ensures AcksKept() && Owned() && Gained(old(handed), old(owner.sent)) && answered == old(answered)
      ensures Now() == ConnectedStep(old(Now()), AllPackets(nsp, old(ids.next), true, rs))
      ensures old(acks) <= acks
      ensures WillClose(old(timers)) || (!old(connected) && Close in rs) ==> WillClose(timers)
    {
      timers := Ended(timers);
      if !connected {
        connected := true;
        Listen(rs);
        ghost var middle := handed;
        SentAllFlags(old(Now()).(connected := true), AllPackets(nsp, old(ids.next), true, rs));
        Drain();
        GainedTwice(old(handed), middle, handed, old(owner.sent));
      }
    }

    method Clear()
      modifies this`queue, this`discarded
      ensures Now() == Emptied(old(Now()))
    {
      while queue != []
        invariant discarded + queue == old(discarded) + old(queue)
        decreases |queue|
      {
        discarded := discarded + [queue[0]];
        queue := queue[1..];
      }
    }

    // Requests of the listener come to nothing: the socket has lost its client.
    method OnClose(rs: seq<Request>)
      requires Owned() && AcksKept()
      modifies this, ids, owner`sent
      ensures AcksKept() && Owned() && owner.sent == old(owner.sent) && acks == old(acks) && answered == old(answered)
      ensures Now() == Closed(old(Now()))
      ensures timers == if old(client) == null then old(timers) else Ended(old(timers))
    {
      if client == null { return; }
      client := null;
      timers := Ended(timers);
      connected := false;
      Clear();
      Listen(rs);
    }

    method OnDisconnect()
      requires Owned() && AcksKept()
      modifies this`connected, this`queue, this`discarded
      ensures AcksKept() && Now() == Disconnected(old(Now()))
    {
      if client == null { return; }
      if connected {
        connected := false;
        Clear();
      }
    }

    // The handler of send_connect's timer.
    method TimeoutConnection(error: bool, rs: seq<Request>)
      requires Owned() && AcksKept()
      modifies this, ids, owner`sent
      ensures AcksKept() && Owned() && owner.sent == old(owner.sent) && acks == old(acks) && answered == old(answered)
      ensures Now() == if error then old(Now()) else Closed(old(Now()))
      ensures error ==> timers == old(timers)
    {
      if client == null || error { return; }
      timers := Ended(timers);
      OnClose(rs);
    }

    // The timer expires: either of its handlers closes the socket.
    method TimerExpires(rs: seq<Request>)
      requires Owned() && AcksKept() && timers.wait.Some?
      modifies this, ids, owner`sent
      ensures AcksKept() && Owned() && Now() == Closed(old(Now())) && owner.sent == old(owner.sent)
    {
      var wait := timers.wait.value;
      timers := timers.(wait := None);
      match wait {
        case ConnectTimeout => TimeoutConnection(false, rs);
        case CloseWait => OnClose(rs);
      }
    }

    // A handler is called because its wait was cancelled. The timeout does nothing then; the close is
    // bound without its error code, so it closes the socket all the same.
    method CancelledHandler(rs: seq<Request>)
      requires Owned() && AcksKept() && timers.cancelled != []
      modifies this, ids, owner`sent
      ensures AcksKept() && Owned() && owner.sent == old(owner.sent)
      ensures Now() == if old(timers.cancelled)[0] == CloseWait then Closed(old(Now())) else old(Now())
      ensures WillClose(old(timers)) ==> client == null || WillClose(timers)
    {
      var wait := timers.cancelled[0];
      timers := timers.(cancelled := timers.cancelled[1..]);
      assert old(timers.cancelled) == [wait] + timers.cancelled;
      match wait {
        case ConnectTimeout => TimeoutConnection(true, rs);
        case CloseWait => OnClose(rs);
      }
    }

    // Whether a callback was called; it is forgotten, so an answer that comes again calls nothing.
    method OnSocketioAck(msgId: int) returns (called: bool)
      requires AcksKept()
      modifies this`acks, this`answered
      ensures AcksKept() && called == (0 <= msgId && msgId in old(acks))
      ensures acks == old(acks) - {msgId} && answered == old(answered) + if called then {msgId} else {}
      ensures called ==> msgId !in old(answered)
    {
      called := 0 <= msgId && msgId in acks;
      if called {
        acks := acks - {msgId};
        answered := answered + {msgId};
      }
    }

    // Runs the listener of an event; an event with a number is answered, after all that the listener sent.
    method OnSocketioEvent(msgId: int, rs: seq<Request>, answer: string)
      requires Owned() && AcksKept()
      modifies this`queue, this`handed, this`accepted, this`acks, this`timers, ids, owner`sent
      ensures AcksKept() && Gained(old(handed), old(owner.sent)) && old(acks) <= acks
      ensures client == null ==> Now() == old(Now())
      ensures client != null ==>
                Now() == SentAll(old(Now()), AllPackets(nsp, old(ids.next), connected, rs)
                                             + if msgId >= 0 then [Packet(AckPacket, nsp, msgId, answer)] else [])
      ensures WillClose(old(timers)) || (client != null && connected && Close in rs) ==> WillClose(timers)
    {
      ghost var v, id := Now(), ids.next;
      Listen(rs);
      ghost var asked := AllPackets(nsp, id, connected, rs);
      if msgId >= 0 {
        ghost var middle := handed;
        SendPacket(Packet(AckPacket, nsp, msgId, answer));
        GainedTwice(old(handed), middle, handed, old(owner.sent));
        SentAllAppend(v, asked, [Packet(AckPacket, nsp, msgId, answer)]);
        assert SentAll(SentAll(v, asked), [Packet(AckPacket, nsp, msgId, answer)])
            == Sent(SentAll(v, asked), Packet(AckPacket, nsp, msgId, answer));
      } else {
        assert asked + [] == asked;
      }
    }

    // What the socket does with a packet of the server. `named` says whether the message of an event
    // is an array that starts with a string; `rs` is what the listener or callback asks for, if one runs.
    method OnMessagePacket(p: Packet, named: bool, rs: seq<Request>, answer: string)
      requires Owned() && AcksKept()
      modifies this, ids, owner`sent
      ensures AcksKept() && Owned() && Gained(old(handed), old(owner.sent))
      ensures client == old(client) || client == null
      ensures Now() == Received(old(Now()), nsp, old(ids.next), p, named, old(acks), rs, answer)
      // A close that was asked for is not forgotten.
      ensures WillClose(old(timers)) ==> client == null || WillClose(timers)
    {
      if client == null { return; }
      if p.nsp == nsp {
        match p.kind {
          case ConnectPacket => OnConnected(rs);
          case DisconnectPacket => OnClose(rs);
          case EventPacket => if named { OnSocketioEvent(p.packId, rs, answer); }
          case AckPacket =>
            var called := OnSocketioAck(p.packId);
            if called { Listen(rs); }
          case ErrorPacket => Listen(rs);
        }
      }
    }
  }
}
