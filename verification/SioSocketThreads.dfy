// The queue of a Socket.IO socket when several threads use the socket, one lock section or one
// access to a shared field at a time. Any number of threads send; the handlers of connections run one
// after the other, on the network thread.
module SioSocketThreads {
  import opened SioSocket

  // What a sending thread does next. In SendHolding it has taken `front` off the queue.
  datatype Sender =
    | Idle
    | SendGuard(p: Packet) | SendCheck(p: Packet)
    | SendDrain(p: Packet) | SendHolding(front: Packet, p: Packet) | SendLast(p: Packet) | SendQueue(p: Packet)

  // What the network thread does next.
  datatype Network =
    | Waiting
    | ConnectGuard | ConnectCheck | ConnectSet | ConnectDrain | ConnectHolding(front: Packet)
    | DisconnectGuard | DisconnectCheck | DisconnectClear
    | CloseGuard | CloseFlag | CloseClear

  datatype Shared = Shared(alive: bool, connected: bool, queue: seq<Packet>, handed: seq<Packet>,
                           discarded: seq<Packet>, accepted: seq<Packet>)

  datatype State = State(shared: Shared, network: Network, senders: seq<Sender>)

  function Hand(s: Shared, p: Packet): Shared { s.(handed := s.handed + [p]) }

  function Discard(s: Shared): Shared { s.(discarded := s.discarded + s.queue, queue := []) }

  // One step of a sending thread. To send without a client is undefined, so such a thread stays where it is.
  function Send(s: Shared, t: Sender): (Shared, Sender) {
    match t
    case Idle => (s, Idle)
    case SendGuard(p) => if s.alive then (s.(accepted := s.accepted + [p]), SendCheck(p)) else (s, Idle)
    case SendCheck(p) => (s, if s.connected then SendDrain(p) else SendQueue(p))
    case SendDrain(p) =>
      if s.queue == [] then (s, SendLast(p)) else (s.(queue := s.queue[1..]), SendHolding(s.queue[0], p))
    case SendHolding(front, p) => if s.alive then (Hand(s, front), SendDrain(p)) else (s, t)
    case SendLast(p) => if s.alive then (Hand(s, p), Idle) else (s, t)
    case SendQueue(p) => (s.(queue := s.queue + [p]), Idle)
  }

  // One step of the network thread.
  function Handle(s: Shared, t: Network): (Shared, Network) {
    match t
    case Waiting => (s, Waiting)
    case ConnectGuard => (s, if s.alive then ConnectCheck else Waiting)
    case ConnectCheck => (s, if s.connected then Waiting else ConnectSet)
    case ConnectSet => (s.(connected := true), ConnectDrain)
    case ConnectDrain =>
      if s.queue == [] then (s, Waiting) else (s.(queue := s.queue[1..]), ConnectHolding(s.queue[0]))
    case ConnectHolding(front) => if s.alive then (Hand(s, front), ConnectDrain) else (s, t)
    case DisconnectGuard => (s, if s.alive then DisconnectCheck else Waiting)
    case DisconnectCheck => if s.connected then (s.(connected := false), DisconnectClear) else (s, Waiting)
    case DisconnectClear => (Discard(s), Waiting)
    case CloseGuard => if s.alive then (s.(alive := false), CloseFlag) else (s, Waiting)
    case CloseFlag => (s.(connected := false), CloseClear)
    case CloseClear => (Discard(s), Waiting)
  }

  // A thread starts to send a packet or goes on; the network thread starts a handler or goes on.
  datatype Action = StartSend(thread: nat, p: Packet) | Go(thread: nat) | Connect | Disconnect | Close | GoNetwork

  function Started(s: State, t: Network): State { if s.network.Waiting? then s.(network := t) else s }

  function Step(s: State, a: Action): State {
    match a
    case StartSend(i, p) =>
      if i < |s.senders| && s.senders[i].Idle? then s.(senders := s.senders[i := SendGuard(p)]) else s
    case Go(i) =>
      if i >= |s.senders| then s
      else
        var (shared, t) := Send(s.shared, s.senders[i]);
        s.(shared := shared, senders := s.senders[i := t])
    case Connect => Started(s, ConnectGuard)
    case Disconnect => Started(s, DisconnectGuard)
    case Close => Started(s, CloseGuard)
    case GoNetwork =>
      var (shared, t) := Handle(s.shared, s.network);
      s.(shared := shared, network := t)
  }

  function Run(s: State, actions: seq<Action>): State
    decreases |actions|
  {
    if actions == [] then s else Run(Step(s, actions[0]), actions[1..])
  }

  function Initial(threads: nat): State {
    State(Shared(true, false, [], [], [], []), Waiting, seq(threads, i => Idle))
  }

  // ----- no packet is lost and none is duplicated

  function One(q: Packet, p: Packet): nat { if q == p then 1 else 0 }

  // How often p is in s.
  function Count(s: seq<Packet>, p: Packet): nat {
    if s == [] then 0 else One(s[0], p) + Count(s[1..], p)
  }

  lemma {:induction false} CountAppend(s: seq<Packet>, t: seq<Packet>, p: Packet)
    ensures Count(s + t, p) == Count(s, p) + Count(t, p)
  {
    if s == [] {
      assert s + t == t;
    } else {
      assert (s + t)[1..] == s[1..] + t;
      CountAppend(s[1..], t, p);
    }
  }

  lemma CountMore(s: seq<Packet>, q: Packet, p: Packet)
    ensures Count(s + [q], p) == Count(s, p) + One(q, p)
  {
    CountAppend(s, [q], p);
  }

  // How often a thread holds p.
  function Held(t: Sender, p: Packet): nat {
    match t
    case SendCheck(q) => One(q, p)
    case SendDrain(q) => One(q, p)
    case SendHolding(front, q) => One(front, p) + One(q, p)
    case SendLast(q) => One(q, p)
    case SendQueue(q) => One(q, p)
    case _ => 0
  }

  function HeldByNetwork(t: Network, p: Packet): nat { if t.ConnectHolding? then One(t.front, p) else 0 }

  function HeldCount(senders: seq<Sender>, p: Packet): nat {
    if senders == [] then 0 else Held(senders[0], p) + HeldCount(senders[1..], p)
  }

  lemma {:induction false} HeldCountUpdate(senders: seq<Sender>, i: nat, t: Sender, p: Packet)
    requires i < |senders|
    ensures HeldCount(senders[i := t], p) + Held(senders[i], p) == HeldCount(senders, p) + Held(t, p)
  {
    if i == 0 {
      assert senders[0 := t][1..] == senders[1..];
    } else {
      HeldCountUpdate(senders[1..], i - 1, t, p);
      assert senders[i := t][1..] == senders[1..][i - 1 := t];
    }
  }

  // How often p is in a place outside the threads.
  function Places(s: Shared, p: Packet): nat { Count(s.handed, p) + Count(s.discarded, p) + Count(s.queue, p) }

  predicate Conserved(s: State, p: Packet) {
    Count(s.shared.accepted, p) == Places(s.shared, p) + HeldCount(s.senders, p) + HeldByNetwork(s.network, p)
  }

  lemma SendConserves(s: Shared, t: Sender, p: Packet)
    ensures var (u, next) := Send(s, t);
            Count(s.accepted, p) + Places(u, p) + Held(next, p) == Count(u.accepted, p) + Places(s, p) + Held(t, p)
  {
    match t {
      case SendGuard(q) => CountMore(s.accepted, q, p);
      case SendHolding(front, _) => CountMore(s.handed, front, p);
      case SendLast(q) => CountMore(s.handed, q, p);
      case SendQueue(q) => CountMore(s.queue, q, p);
      case _ =>
    }
  }

  lemma HandleConserves(s: Shared, t: Network, p: Packet)
    ensures var (u, next) := Handle(s, t);
            u.accepted == s.accepted && Places(u, p) + HeldByNetwork(next, p) == Places(s, p) + HeldByNetwork(t, p)
  {
    match t {
      case ConnectHolding(front) => CountMore(s.handed, front, p);
      case DisconnectClear => CountAppend(s.discarded, s.queue, p);
      case CloseClear => CountAppend(s.discarded, s.queue, p);
      case _ =>
    }
  }

  lemma StepConserves(s: State, a: Action, p: Packet)
    requires Conserved(s, p)
    ensures Conserved(Step(s, a), p)
  {
    match a {
      case StartSend(i, q) => if i < |s.senders| { HeldCountUpdate(s.senders, i, SendGuard(q), p); }
      case Go(i) =>
        if i < |s.senders| {
          SendConserves(s.shared, s.senders[i], p);
          HeldCountUpdate(s.senders, i, Send(s.shared, s.senders[i]).1, p);
        }
      case GoNetwork => HandleConserves(s.shared, s.network, p);
      case _ =>
    }
  }

  lemma {:induction false} RunConserves(s: State, actions: seq<Action>, p: Packet)
    requires Conserved(s, p)
    ensures Conserved(Run(s, actions), p)
    decreases |actions|
  {
    if actions != [] {
      StepConserves(s, actions[0], p);
      RunConserves(Step(s, actions[0]), actions[1..], p);
    }
  }

  // All threads are between two calls.
  predicate Quiet(s: State) { s.network.Waiting? && forall i | 0 <= i < |s.senders| :: s.senders[i].Idle? }

  lemma {:induction false} IdleHoldNothing(senders: seq<Sender>, p: Packet)
    requires forall i | 0 <= i < |senders| :: senders[i].Idle?
    ensures HeldCount(senders, p) == 0
  {
    if senders != [] {
      IdleHoldNothing(senders[1..], p);
    }
  }

  // However the threads take turns, each accepted packet is in exactly one place.
  lemma NothingLostOrDoubled(threads: nat, actions: seq<Action>, p: Packet)
    ensures var s := Run(Initial(threads), actions);
            && Count(s.shared.accepted, p) == Count(s.shared.handed, p) + Count(s.shared.discarded, p)
                                              + Count(s.shared.queue, p) + HeldCount(s.senders, p)
                                              + HeldByNetwork(s.network, p)
            && (Quiet(s) ==> Count(s.shared.accepted, p) == Places(s.shared, p))
  {
    IdleHoldNothing(Initial(threads).senders, p);
    RunConserves(Initial(threads), actions, p);
    var s := Run(Initial(threads), actions);
    if Quiet(s) {
      IdleHoldNothing(s.senders, p);
    }
  }

  // A thread between two calls does nothing by itself, and starts only when it is called.
  lemma CallsStart(s: State, i: nat, p: Packet)
    requires i < |s.senders|
    ensures s.senders[i] == Idle ==>
              Step(s, Go(i)) == s && Step(s, StartSend(i, p)) == s.(senders := s.senders[i := SendGuard(p)])
    ensures s.senders[i] != Idle ==> Step(s, StartSend(i, p)) == s
    ensures s.network == Waiting ==>
              && Step(s, GoNetwork) == s && Step(s, Connect) == s.(network := ConnectGuard)
              && Step(s, Disconnect) == s.(network := DisconnectGuard)
              && Step(s, Action.Close) == s.(network := CloseGuard)
    ensures s.network != Waiting ==> Step(s, Connect) == Step(s, Disconnect) == Step(s, Action.Close) == s
  {
    assert s.senders[i := s.senders[i]] == s.senders;
  }

  // ----- calls that run alone

  // What a state is for the socket as a whole.
  function AsView(s: Shared): View {
    View(s.alive, s.connected, s.queue, s.handed, s.discarded, s.accepted)
  }

  // n steps of a sending thread.
  function GoOn(i: nat, n: nat): seq<Action> { if n == 0 then [] else [Go(i)] + GoOn(i, n - 1) }

  lemma RunFirst(s: State, a: Action, rest: seq<Action>)
    ensures Run(s, [a] + rest) == Run(Step(s, a), rest)
  {
    assert ([a] + rest)[1..] == rest;
  }

  // A connected thread that drains the queue hands over all that waits and then its own packet.
  lemma {:induction false} DrainAlone(s: State, i: nat, p: Packet)
    requires i < |s.senders| && s.senders[i] == SendDrain(p) && s.shared.alive
    ensures var t := Run(s, GoOn(i, 2 * |s.shared.queue| + 2));
            && t.shared == s.shared.(queue := [], handed := s.shared.handed + s.shared.queue + [p])
            && t.senders == s.senders[i := Idle] && t.network == s.network
    decreases |s.shared.queue|
  {
    var queue, n := s.shared.queue, 2 * |s.shared.queue| + 2;
    var t := Step(s, Go(i));
    var u := Step(t, Go(i));
    RunFirst(s, Go(i), GoOn(i, n - 1));
    RunFirst(t, Go(i), GoOn(i, n - 2));
    if queue == [] {
      assert s.shared.handed + [] == s.shared.handed;
      assert t.senders[i := Idle] == s.senders[i := Idle];
    } else {
      assert u.senders == s.senders[i := SendDrain(p)] == s.senders;
      DrainAlone(u, i, p);
      assert u.shared.handed + u.shared.queue + [p] == s.shared.handed + queue + [p] by {
        assert queue == [queue[0]] + queue[1..];
      }
      assert u.senders[i := Idle] == s.senders[i := Idle];
    }
  }

  // A packet that is sent while no other thread moves does what the socket does with it as a whole.
  lemma SendAlone(s: State, i: nat, p: Packet)
    requires i < |s.senders| && s.senders[i] == SendGuard(p)
    ensures var n := if !s.shared.alive then 1 else if s.shared.connected then 2 * |s.shared.queue| + 4 else 3;
            var t := Run(s, GoOn(i, n));
            && AsView(t.shared) == Sent(AsView(s.shared), p)
            && t.senders == s.senders[i := Idle] && t.network == s.network
  {
    var n := if !s.shared.alive then 1 else if s.shared.connected then 2 * |s.shared.queue| + 4 else 3;
    var t := Step(s, Go(i));
    RunFirst(s, Go(i), GoOn(i, n - 1));
    if s.shared.alive {
      var u := Step(t, Go(i));
      RunFirst(t, Go(i), GoOn(i, n - 2));
      if s.shared.connected {
        DrainAlone(u, i, p);
        assert u.senders[i := Idle] == s.senders[i := Idle];
      } else {
        RunFirst(u, Go(i), []);
        assert [Go(i)] + [] == GoOn(i, 1);
        assert Step(u, Go(i)).senders == s.senders[i := Idle];
      }
    }
  }

  // n steps of the network thread.
  function HandleOn(n: nat): seq<Action> { if n == 0 then [] else [GoNetwork] + HandleOn(n - 1) }

  lemma {:induction false} ConnectDrainAlone(s: State)
    requires s.network == ConnectDrain && s.shared.alive
    ensures Run(s, HandleOn(2 * |s.shared.queue| + 1)) ==
            s.(shared := s.shared.(queue := [], handed := s.shared.handed + s.shared.queue), network := Waiting)
    decreases |s.shared.queue|
  {
    var queue, n := s.shared.queue, 2 * |s.shared.queue| + 1;
    var t := Step(s, GoNetwork);
    RunFirst(s, GoNetwork, HandleOn(n - 1));
    if queue == [] {
      assert s.shared.handed + [] == s.shared.handed;
    } else {
      var u := Step(t, GoNetwork);
      RunFirst(t, GoNetwork, HandleOn(n - 2));
      ConnectDrainAlone(u);
      assert u.shared.handed + u.shared.queue == s.shared.handed + queue by {
        assert queue == [queue[0]] + queue[1..];
      }
    }
  }

  // So do the handlers, when no sending thread moves: the connection whose listener sends nothing,
  lemma ConnectAlone(s: State)
    requires s.network == ConnectGuard && (s.shared.connected ==> s.shared.alive)
    ensures var n := if !s.shared.alive then 1 else if s.shared.connected then 2 else 2 * |s.shared.queue| + 4;
            var t := Run(s, HandleOn(n));
            && t.network == Waiting && t.senders == s.senders
            && AsView(t.shared) == if s.shared.alive then ConnectedStep(AsView(s.shared), []) else AsView(s.shared)
  {
    var n := if !s.shared.alive then 1 else if s.shared.connected then 2 else 2 * |s.shared.queue| + 4;
    var t := Step(s, GoNetwork);
    RunFirst(s, GoNetwork, HandleOn(n - 1));
    if s.shared.alive {
      var u := Step(t, GoNetwork);
      RunFirst(t, GoNetwork, HandleOn(n - 2));
      if !s.shared.connected {
        var v := Step(u, GoNetwork);
        RunFirst(u, GoNetwork, HandleOn(n - 3));
        ConnectDrainAlone(v);
      }
    }
  }

  // the disconnection,
  lemma DisconnectAlone(s: State)
    requires s.network == DisconnectGuard
    ensures var n := if !s.shared.alive then 1 else if s.shared.connected then 3 else 2;
            var t := Run(s, HandleOn(n));
            t.network == Waiting && t.senders == s.senders && AsView(t.shared) == Disconnected(AsView(s.shared))
  {
    var n := if !s.shared.alive then 1 else if s.shared.connected then 3 else 2;
    var t := Step(s, GoNetwork);
    RunFirst(s, GoNetwork, HandleOn(n - 1));
    if s.shared.alive {
      var u := Step(t, GoNetwork);
      RunFirst(t, GoNetwork, HandleOn(n - 2));
      if s.shared.connected {
        RunFirst(u, GoNetwork, HandleOn(0));
      }
    }
  }

  // and the close.
  lemma CloseAlone(s: State)
    requires s.network == CloseGuard
    ensures var t := Run(s, HandleOn(if s.shared.alive then 3 else 1));
            t.network == Waiting && t.senders == s.senders && AsView(t.shared) == Closed(AsView(s.shared))
  {
    var n := if s.shared.alive then 3 else 1;
    var t := Step(s, GoNetwork);
    RunFirst(s, GoNetwork, HandleOn(n - 1));
    if s.shared.alive {
      var u := Step(t, GoNetwork);
      RunFirst(t, GoNetwork, HandleOn(1));
      RunFirst(u, GoNetwork, HandleOn(0));
    }
  }

  // ----- when a disconnection discards a packet

  predicate Draining(t: Network) { t.ConnectDrain? || t.ConnectHolding? }

  // This step puts a packet into the queue when nothing is sure to take it out again: the socket is
  // connected and the handler of the connection has found the queue empty, or a disconnection is
  // about to clear it.
  predicate Strays(s: State, a: Action) {
    && a.Go? && a.thread < |s.senders| && s.senders[a.thread].SendQueue?
    && ((s.shared.connected && !Draining(s.network)) || s.network.DisconnectClear?)
  }

  predicate AnyStrays(s: State, actions: seq<Action>)
    decreases |actions|
  {
    actions != [] && (Strays(s, actions[0]) || AnyStrays(Step(s, actions[0]), actions[1..]))
  }

  // What holds while no step strays and nobody closes the socket.
  predicate Orderly(s: State) {
    && s.shared.alive && !s.network.CloseGuard? && !s.network.CloseFlag? && !s.network.CloseClear?
    && s.shared.discarded == []
    && (s.shared.connected && !Draining(s.network) ==> s.shared.queue == [])
    && (s.network.DisconnectClear? ==> s.shared.queue == [])
    && (s.network.DisconnectClear? || s.network.ConnectSet? ==> !s.shared.connected)
  }

  lemma StepOrderly(s: State, a: Action)
    requires Orderly(s) && !Strays(s, a) && !a.Close?
    ensures Orderly(Step(s, a))
  {}

  lemma {:induction false} RunOrderly(s: State, actions: seq<Action>)
    requires Orderly(s) && !AnyStrays(s, actions) && Action.Close !in actions
    ensures Orderly(Run(s, actions))
    decreases |actions|
  {
    if actions != [] {
      StepOrderly(s, actions[0]);
      RunOrderly(Step(s, actions[0]), actions[1..]);
    }
  }

  // As long as no step strays and nobody closes the socket, no disconnection discards anything, and a
  // connected socket whose handler is done keeps nothing waiting.
  lemma NothingDiscarded(threads: nat, actions: seq<Action>)
    requires !AnyStrays(Initial(threads), actions) && Action.Close !in actions
    ensures var s := Run(Initial(threads), actions).shared; s.discarded == []
    ensures var s := Run(Initial(threads), actions);
            s.shared.connected && !Draining(s.network) ==> s.shared.queue == []
  {
    RunOrderly(Initial(threads), actions);
  }

  // What holds in every run, as the handlers run one after the other.
  predicate Steady(s: State) {
    && (s.network.ConnectSet? || s.network.DisconnectClear? || s.network.CloseClear? ==> !s.shared.connected)
    && (s.shared.connected ==> s.shared.alive || s.network.CloseFlag?)
    && (s.network.ConnectCheck? || s.network.ConnectSet? || Draining(s.network) || s.network.DisconnectCheck?
        ==> s.shared.alive)
    && (s.network.CloseFlag? || s.network.CloseClear? ==> !s.shared.alive)
  }

  lemma {:induction false} RunSteady(s: State, actions: seq<Action>)
    requires Steady(s)
    ensures Steady(Run(s, actions))
    decreases |actions|
  {
    if actions != [] {
      RunSteady(Step(s, actions[0]), actions[1..]);
    }
  }

  // What a thread that finds the socket connected does next, when a disconnection is all that comes.
  function Next(t: Network): Network {
    match t
    case Waiting => DisconnectGuard
    case DisconnectGuard => DisconnectCheck
    case DisconnectCheck => DisconnectClear
    case CloseGuard => CloseFlag
    case CloseFlag => CloseClear
    case ConnectGuard => ConnectCheck
    case _ => Waiting
  }

  // How many steps it is from discarding the queue.
  function Distance(t: Network): nat {
    match t
    case Waiting => 3
    case DisconnectGuard => 2
    case DisconnectCheck => 1
    case DisconnectClear => 0
    case CloseGuard => 2
    case CloseFlag => 1
    case CloseClear => 0
    case ConnectGuard => 5
    case _ => 4
  }

  // The steps of the network thread that end what it does and disconnect the socket; they start no close.
  function Discarding(t: Network): (actions: seq<Action>)
    ensures Action.Close !in actions
    decreases Distance(t)
  {
    if Distance(t) == 0 then [GoNetwork]
    else [if t.Waiting? then Disconnect else GoNetwork] + Discarding(Next(t))
  }

  // From every step that strays the run can go on so that its packet is discarded.
  lemma StrayCanBeDiscarded(threads: nat, actions: seq<Action>, a: Action)
    requires Strays(Run(Initial(threads), actions), a)
    ensures var s := Run(Initial(threads), actions);
            var t := Run(Step(s, a), Discarding(s.network)).shared;
            && t.queue == [] && t.discarded == s.shared.discarded + s.shared.queue + [s.senders[a.thread].p]
  {
    var s := Run(Initial(threads), actions);
    RunSteady(Initial(threads), actions);
    NetworkDiscards(Step(s, a));
    var p := s.senders[a.thread].p;
    assert s.shared.discarded + (s.shared.queue + [p]) == s.shared.discarded + s.shared.queue + [p];
  }

  // Discarding the queue is under way, or will be if the socket is disconnected.
  predicate Exposed(s: State) {
    (s.shared.connected && !Draining(s.network)) || s.network.DisconnectClear? || s.network.CloseClear?
  }

  lemma {:induction false} NetworkDiscards(s: State)
    requires Steady(s) && Exposed(s)
    ensures var t := Run(s, Discarding(s.network)).shared;
            t.queue == [] && t.discarded == s.shared.discarded + s.shared.queue
    decreases Distance(s.network)
  {
    if Distance(s.network) == 0 {
      RunFirst(s, GoNetwork, []);
      assert [GoNetwork] + [] == [GoNetwork];
    } else {
      var a := if s.network.Waiting? then Disconnect else GoNetwork;
      var next := Step(s, a);
      assert next.network == Next(s.network) && next.shared.queue == s.shared.queue;
      RunFirst(s, a, Discarding(next.network));
      NetworkDiscards(next);
    }
  }

  // ----- two runs that stray

  lemma {:induction false} RunAppend(s: State, actions: seq<Action>, a: Action)
    ensures Run(s, actions + [a]) == Step(Run(s, actions), a)
    decreases |actions|
  {
    if actions == [] {
      RunFirst(s, a, []);
      assert [] + [a] == [a] + [];
    } else {
      assert (actions + [a])[1..] == actions[1..] + [a];
      RunAppend(Step(s, actions[0]), actions[1..], a);
    }
  }

  lemma RunMore(s: State, actions: seq<Action>, a: Action) returns (longer: seq<Action>)
    ensures longer == actions + [a] && Run(s, longer) == Step(Run(s, actions), a)
  {
    longer := actions + [a];
    RunAppend(s, actions, a);
  }

  // A thread finds the socket not connected, the network thread connects it and drains the queue, and
  // only then the thread puts its packet there. With nothing more to do the packet waits.
  lemma LatePacketStrands(p: Packet) returns (actions: seq<Action>)
    ensures var s := Run(Initial(1), actions); Quiet(s) && s.shared == Shared(true, true, [p], [], [], [p])
  {
    var s := Initial(1);
    actions := RunMore(s, [], StartSend(0, p));
    actions := RunMore(s, actions, Go(0));
    actions := RunMore(s, actions, Go(0));
    assert Run(s, actions).senders == [SendQueue(p)];
    actions := RunMore(s, actions, Connect);
    actions := RunMore(s, actions, GoNetwork);
    actions := RunMore(s, actions, GoNetwork);
    actions := RunMore(s, actions, GoNetwork);
    assert Run(s, actions).network == ConnectDrain;
    actions := RunMore(s, actions, GoNetwork);
    actions := RunMore(s, actions, Go(0));
    assert Run(s, actions).senders == [Idle];
  }

  // The network thread has marked the socket as not connected and is about to clear the queue when a
  // thread puts a packet there.
  lemma PacketMeetsDisconnection(p: Packet) returns (actions: seq<Action>)
    ensures var s := Run(Initial(1), actions); Quiet(s) && s.shared == Shared(true, false, [], [], [p], [p])
  {
    var s := Initial(1);
    actions := RunMore(s, [], Connect);
    actions := RunMore(s, actions, GoNetwork);
    actions := RunMore(s, actions, GoNetwork);
    actions := RunMore(s, actions, GoNetwork);
    actions := RunMore(s, actions, GoNetwork);
    assert Run(s, actions) == State(Shared(true, true, [], [], [], []), Waiting, [Idle]);
    actions := RunMore(s, actions, Disconnect);
    actions := RunMore(s, actions, GoNetwork);
    actions := RunMore(s, actions, GoNetwork);
    assert Run(s, actions).network == DisconnectClear;
    actions := RunMore(s, actions, StartSend(0, p));
    actions := RunMore(s, actions, Go(0));
    actions := RunMore(s, actions, Go(0));
    actions := RunMore(s, actions, Go(0));
    assert Run(s, actions).senders == [Idle];
    actions := RunMore(s, actions, GoNetwork);
  }
}
