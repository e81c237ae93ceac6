// The connection of a Socket.IO client: connecting, closing and connecting again.
module SioClient {
  import opened SioBackoff

  datatype ConState = Opening | Opened | Closing | Closed

  // What the network has of the client: a connection is attempted, or there is one.
  datatype Link = NoLink | Attempting | Live

  // What the network thread is still to do.
  datatype Task = ConnectTask | CloseTask

  // Why the application's thread waits for the network thread to end.
  datatype Join = NotJoining | ForConnect | ForClose

  // `hasCon`: m_con refers to a connection. `closeSent`: its closing was started. `timer`: the
  // reconnection timer runs. `thread`: there is a thread object; `running`: its loop has not ended.
  // `asked`: the application closed the client and did not connect it again.
  datatype State = State(con: ConState, hasCon: bool, link: Link, closeSent: bool, timer: bool,
                         tasks: seq<Task>, thread: bool, running: bool, join: Join,
                         made: nat, attempts: nat, asked: bool)

  const INITIAL := State(Closed, false, NoLink, false, false, [], false, false, NotJoining, 0, 0xFFFF_FFFF, false)

  datatype Event =
    | Connect | ConnectJoined               // connect(), and its end after a join
    | Close | SyncClose | SyncCloseJoined
    | SetAttempts(n: nat)
    | RunTask(connects: bool)               // `connects`: a connection object could be made
    | OnOpen | OnFail | OnClose(normal: bool)
    | TimeoutReconnect(connects: bool)
    | CloseByClient                         // pong timeout, bad handshake, close packet
    | LoopEnd

  // ----- the handlers

  function StartConnect(s: State): State {
    s.(con := Opening, made := 0, tasks := s.tasks + [ConnectTask], thread := true, running := true,
       join := NotJoining, asked := false)
  }

  function ConnectStep(s: State): State {
    var t := s.(timer := false);
    if !s.thread then StartConnect(t)
    else if s.con == Closing || s.con == Closed then t.(join := ForConnect)
    else t
  }

  function CloseImpl(s: State): State { s.(timer := false, closeSent := s.closeSent || s.hasCon) }

  function CloseStep(s: State): State { s.(con := Closing, tasks := s.tasks + [CloseTask], asked := true) }

  // close() on the network thread, where the dispatched work is done at once.
  function CloseInline(s: State): State { CloseImpl(s.(con := Closing, asked := true)) }

  function ConnectImpl(s: State, connects: bool): State { if connects then s.(link := Attempting) else s }

  function RunTaskStep(s: State, connects: bool): State
    requires s.tasks != []
  {
    var t := s.(tasks := s.tasks[1..]);
    if s.tasks[0].ConnectTask? then ConnectImpl(t, connects) else CloseImpl(t)
  }

  function OnOpenStep(s: State): State {
    var t := s.(link := Live);
    if s.con == Closing then CloseInline(t) else t.(con := Opened, hasCon := true, made := 0)
  }

  function OnFailStep(s: State): State {
    var t := s.(link := NoLink);
    if s.con == Closing then CloseInline(t)
    else t.(hasCon := false, con := Closed, timer := s.timer || s.made < s.attempts)
  }

  function OnCloseStep(s: State, normal: bool): State {
    s.(link := NoLink, con := Closed, hasCon := false, closeSent := false,
       timer := s.timer || (!normal && s.con != Closing && s.made < s.attempts))
  }

  function TimeoutStep(s: State, connects: bool): State {
    var t := s.(timer := false);
    if s.con == Closed then ConnectImpl(t.(con := Opening, made := s.made + 1), connects) else t
  }

  // ----- runs

  // When an event can come. A handler runs only while the loop does, the websocket calls a handler
  // only for a connection of its own, and while the application's thread joins it calls nothing else.
  predicate Enabled(s: State, e: Event) {
    match e
    case Connect => s.join == NotJoining
    case ConnectJoined => s.join == ForConnect && !s.running
    case Close => s.join == NotJoining
    case SyncClose => s.join == NotJoining
    case SyncCloseJoined => s.join == ForClose && !s.running
    case SetAttempts(_) => s.join == NotJoining
    case RunTask(_) => s.running && s.tasks != []
    case OnOpen => s.running && s.link == Attempting
    case OnFail => s.running && s.link == Attempting
    case OnClose(_) => s.running && s.link == Live
    case TimeoutReconnect(_) => s.running && s.timer
    case CloseByClient => s.running && s.link == Live
    case LoopEnd => s.running && s.tasks == [] && s.link == NoLink && !s.timer
  }

  function Handled(s: State, e: Event): State
    requires Enabled(s, e)
  {
    match e
    case Connect => ConnectStep(s)
    case ConnectJoined => StartConnect(s)
    case Close => CloseStep(s)
    case SyncClose => var t := CloseStep(s); if s.thread then t.(join := ForClose) else t
    case SyncCloseJoined => s.(thread := false, join := NotJoining)
    case SetAttempts(n) => s.(attempts := n)
    case RunTask(connects) => RunTaskStep(s, connects)
    case OnOpen => OnOpenStep(s)
    case OnFail => OnFailStep(s)
    case OnClose(normal) => OnCloseStep(s, normal)
    case TimeoutReconnect(connects) => TimeoutStep(s, connects)
    case CloseByClient => CloseImpl(s)
    case LoopEnd => s.(running := false)
  }

  function Step(s: State, e: Event): State { if Enabled(s, e) then Handled(s, e) else s }

  function Run(s: State, es: seq<Event>): State
    decreases |es|
  {
    if es == [] then s else Run(Step(s, es[0]), es[1..])
  }

  // ----- what every run keeps

  predicate Kept(s: State) {
    && (s.timer ==> s.link == NoLink && ConnectTask !in s.tasks && (s.con == Closed || s.con == Closing) && s.running)
    && (ConnectTask in s.tasks ==> s.link == NoLink && (s.con == Opening || s.con == Closing) && s.running)
    && OneConnect(s.tasks)
    && (s.link == Attempting ==> s.con == Opening || s.con == Closing)
    && (s.link == Live ==> s.con == Opened || s.con == Closing)
    && (s.link != NoLink ==> s.running)
    && (s.con == Opened ==> s.link == Live)
    && (s.hasCon ==> s.link == Live)
    && (s.con == Opened ==> s.hasCon)
    && (s.closeSent ==> s.hasCon)
    && (s.running ==> s.thread)
    && (s.join != NotJoining ==> s.thread && AtRest(s))
    && (s.asked ==> AtRest(s))
    && (s.con == Closing ==> s.asked)
    && (s.asked && s.hasCon ==> s.closeSent || CloseTask in s.tasks)
    && (s.asked && s.timer ==> CloseTask in s.tasks)
  }

  // Nothing is under way that would open the connection.
  predicate AtRest(s: State) { s.con == Closing || (s.con == Closed && !s.timer) }

  predicate OneConnect(tasks: seq<Task>) {
    forall i, j | 0 <= i < j < |tasks| :: !(tasks[i].ConnectTask? && tasks[j].ConnectTask?)
  }

  lemma StepKept(s: State, e: Event)
    requires Kept(s) && Enabled(s, e)
    ensures Kept(Handled(s, e))
  {
    match e {
      case RunTask(connects) => TaskKept(s, connects);
      case _ =>
    }
  }

  lemma TaskKept(s: State, connects: bool)
    requires Kept(s) && s.running && s.tasks != []
    ensures Kept(RunTaskStep(s, connects))
  {
    var rest := s.tasks[1..];
    assert s.tasks[0].ConnectTask? ==> ConnectTask !in rest;
    assert forall t | t in rest :: t in s.tasks;
    assert s.tasks[0].ConnectTask? && CloseTask in s.tasks ==> CloseTask in rest;
  }

  lemma {:induction false} RunKept(s: State, es: seq<Event>)
    requires Kept(s)
    ensures Kept(Run(s, es))
    decreases |es|
  {
    if es != [] {
      if Enabled(s, es[0]) {
        StepKept(s, es[0]);
      }
      RunKept(Step(s, es[0]), es[1..]);
    }
  }

  // In every run: a reconnection is awaited only while there is no connection and none is attempted,
  // an open client has a live connection, and there is never more than one connection.
  lemma ConnectionStates(es: seq<Event>)
    ensures var s := Run(INITIAL, es);
            && (s.timer ==> s.link == NoLink && ConnectTask !in s.tasks && (s.con == Closed || s.con == Closing))
            && (s.con == Opened ==> s.link == Live && s.hasCon)
            && (ConnectTask in s.tasks ==> s.link == NoLink && !s.timer && OneConnect(s.tasks))
            && (s.con == Closed ==> s.link == NoLink && ConnectTask !in s.tasks)
  {
    RunKept(INITIAL, es);
  }

  lemma {:induction false} AskedStays(s: State, es: seq<Event>)
    requires Kept(s) && s.asked && s.join != ForConnect && Connect !in es
    ensures var t := Run(s, es); t.asked && AtRest(t)
    decreases |es|
  {
    if es != [] {
      if Enabled(s, es[0]) {
        StepKept(s, es[0]);
      }
      AskedStays(Step(s, es[0]), es[1..]);
    }
  }

  // Once the application closes the client, whenever that is, nothing that was under way opens it
  // again: only connect() does.
  lemma ClosedStaysClosed(before: seq<Event>, close: Event, after: seq<Event>)
    requires (close == Close || close == SyncClose) && Enabled(Run(INITIAL, before), close) && Connect !in after
    ensures var s := Run(Step(Run(INITIAL, before), close), after); s.con == Closing || (s.con == Closed && !s.timer)
  {
    RunKept(INITIAL, before);
    StepKept(Run(INITIAL, before), close);
    AskedStays(Step(Run(INITIAL, before), close), after);
  }

  predicate Bounded(s: State) { s.made <= s.attempts && (s.timer ==> s.made < s.attempts) }

  lemma StepBounded(s: State, e: Event)
    requires Kept(s) && Bounded(s) && Enabled(s, e) && !e.SetAttempts?
    ensures Bounded(Handled(s, e)) && Handled(s, e).attempts == s.attempts
  {}

  // The attempts stay within the limit, as long as the limit stays.
  lemma {:induction false} AttemptsBounded(s: State, es: seq<Event>)
    requires Kept(s) && Bounded(s)
    requires forall i | 0 <= i < |es| :: !es[i].SetAttempts?
    ensures Run(s, es).made <= Run(s, es).attempts == s.attempts
    decreases |es|
  {
    if es != [] {
      if Enabled(s, es[0]) {
        StepKept(s, es[0]);
        StepBounded(s, es[0]);
      }
      AttemptsBounded(Step(s, es[0]), es[1..]);
    }
  }

  lemma MadeWithinLimit(limit: nat, es: seq<Event>)
    requires forall i | 0 <= i < |es| :: !es[i].SetAttempts?
    ensures Run(INITIAL.(attempts := limit), es).made <= limit
  {
    AttemptsBounded(INITIAL.(attempts := limit), es);
  }

  // ----- connecting again

  lemma RunTwo(s: State, e: Event, f: Event)
    ensures Run(s, [e, f]) == Step(Step(s, e), f)
  {
    assert [e, f][1..] == [f] && [f][1..] == [];
    assert Run(Step(s, e), [f]) == Run(Step(Step(s, e), f), []);
  }

  // An attempt that fails is followed by another one when the timer fires, with one more attempt made,
  // exactly if the limit allows it; otherwise the client stays closed.
  lemma FailureIsRetried(es: seq<Event>)
    requires var s := Run(INITIAL, es); s.link == Attempting && s.con != Closing
    ensures var s := Run(INITIAL, es);
            var t := Run(s, [OnFail, TimeoutReconnect(true)]);
            && (s.made < s.attempts ==> t.con == Opening && t.link == Attempting && t.made == s.made + 1)
            && (s.made >= s.attempts ==> t.con == Closed && t.link == NoLink && !t.timer && t.made == s.made)
            && t.attempts == s.attempts
  {
    RunKept(INITIAL, es);
    RunTwo(Run(INITIAL, es), OnFail, TimeoutReconnect(true));
  }

  // So is a connection that is lost, but not one that is closed normally.
  lemma LossIsRetried(es: seq<Event>, normal: bool)
    requires Run(INITIAL, es).con == Opened
    ensures var s := Run(INITIAL, es);
            var t := Run(s, [OnClose(normal), TimeoutReconnect(true)]);
            if !normal && s.made < s.attempts then t.con == Opening && t.link == Attempting && t.made == s.made + 1
            else t.con == Closed && t.link == NoLink && !t.timer && t.made == s.made
  {
    RunKept(INITIAL, es);
    RunTwo(Run(INITIAL, es), OnClose(normal), TimeoutReconnect(true));
  }

  // An attempt that succeeds opens the client, and all attempts are there again.
  lemma SuccessResets(es: seq<Event>)
    requires var s := Run(INITIAL, es); s.link == Attempting && s.con != Closing
    ensures var t := Step(Run(INITIAL, es), OnOpen); t.con == Opened && t.link == Live && t.hasCon && t.made == 0
  {
    RunKept(INITIAL, es);
  }

  // What was dispatched before is done before the connection is attempted.
  lemma ConnectComesLast(es: seq<Event>)
    requires var s := Run(INITIAL, es);
             (Enabled(s, Connect) && !s.thread) || Enabled(s, ConnectJoined)
    ensures var s := Run(INITIAL, es);
            var t := Step(s, if s.join == ForConnect then ConnectJoined else Connect);
            t.tasks == s.tasks + [ConnectTask] && t.con == Opening && t.made == 0 && t.thread && t.running
  {}

  // A connection that the client gives up, after a pong timeout for example, is being closed and counts
  // as open until it is.
  lemma GivenUpConnection(es: seq<Event>)
    requires Run(INITIAL, es).con == Opened
    ensures var s := Run(INITIAL, es); Step(s, CloseByClient) == s.(closeSent := true)
  {
    RunKept(INITIAL, es);
  }

  // A new limit is set at once, and nothing else.
  lemma LimitIsSet(es: seq<Event>, n: nat)
    requires Run(INITIAL, es).join == NotJoining
    ensures Step(Run(INITIAL, es), SetAttempts(n)) == Run(INITIAL, es).(attempts := n)
  {}

  // A client without a thread connects when it is told to: once what was dispatched before is done.
  lemma ConnectAttempts(es: seq<Event>)
    requires var s := Run(INITIAL, es); Enabled(s, Connect) && !s.thread && s.tasks == []
    ensures var s := Run(INITIAL, es);
            var t := Run(s, [Connect, RunTask(true)]);
            t.con == Opening && t.link == Attempting && t.made == 0 && t.attempts == s.attempts && !t.timer
  {
    RunKept(INITIAL, es);
    var s := Run(INITIAL, es);
    RunTwo(s, Connect, RunTask(true));
    assert s.tasks + [ConnectTask] == [ConnectTask];
  }

  // A closed client joins its old thread first: the timer is cancelled, the loop ends, and it connects.
  lemma ConnectAttemptsAgain(es: seq<Event>)
    requires var s := Run(INITIAL, es); Enabled(s, Connect) && s.thread && s.running && s.con == Closed && s.tasks == []
    ensures var s := Run(INITIAL, es);
            var t := Run(Run(s, [Connect, LoopEnd]), [ConnectJoined, RunTask(true)]);
            t.con == Opening && t.link == Attempting && t.made == 0 && t.attempts == s.attempts
  {
    RunKept(INITIAL, es);
    var s := Run(INITIAL, es);
    RunTwo(s, Connect, LoopEnd);
    var u := Run(s, [Connect, LoopEnd]);
    assert Enabled(Step(s, Connect), LoopEnd);
    RunTwo(u, ConnectJoined, RunTask(true));
    assert u.tasks + [ConnectTask] == [ConnectTask];
  }

  // k attempts that fail in a row, each with the timer behind it.
  function Failures(k: nat): seq<Event> {
    if k == 0 then [] else [OnFail, TimeoutReconnect(true)] + Failures(k - 1)
  }

  // After a connect, k failures use up k attempts or all there are. While attempts are left another is
  // under way; one failure beyond the limit, nothing is, and no timer runs.
  lemma {:induction false} FailuresCount(s: State, k: nat)
    requires Kept(s) && s.con == Opening && s.link == Attempting && s.made <= s.attempts
    ensures var t := Run(s, Failures(k));
            && t.attempts == s.attempts
            && t.made == (if k <= s.attempts - s.made then s.made + k else s.attempts)
            && (k <= s.attempts - s.made ==> t.con == Opening && t.link == Attempting)
            && (k > s.attempts - s.made ==> t.con == Closed && t.link == NoLink && !t.timer)
    decreases k
  {
    if k > 0 {
      var e, f := OnFail, TimeoutReconnect(true);
      StepKept(s, e);
      var u := Step(s, e);
      var v := Step(u, f);
      RunTwoMore(s, e, f, Failures(k - 1));
      if s.made < s.attempts {
        StepKept(u, f);
        FailuresCount(v, k - 1);
      } else {
        ClosedIgnores(v, k - 1);
      }
    }
  }

  lemma RunTwoMore(s: State, e: Event, f: Event, rest: seq<Event>)
    ensures Run(s, [e, f] + rest) == Run(Step(Step(s, e), f), rest)
  {
    assert ([e, f] + rest)[1..] == [f] + rest;
    assert ([f] + rest)[1..] == rest;
  }

  lemma {:induction false} ClosedIgnores(s: State, k: nat)
    requires s.con == Closed && s.link == NoLink && !s.timer
    ensures Run(s, Failures(k)) == s
  {
    if k > 0 {
      RunTwoMore(s, OnFail, TimeoutReconnect(true), Failures(k - 1));
      ClosedIgnores(s, k - 1);
    }
  }

  // The same from the first connect() on.
  lemma FailuresAfterConnect(limit: nat, k: nat)
    ensures var s := Run(INITIAL.(attempts := limit), [Connect, RunTask(true)]);
            var t := Run(s, Failures(k));
            && t.made == (if k <= limit then k else limit)
            && (k <= limit ==> t.con == Opening && t.link == Attempting)
            && (k > limit ==> t.con == Closed && t.link == NoLink && !t.timer)
  {
    var s := INITIAL.(attempts := limit);
    RunTwo(s, Connect, RunTask(true));
    assert [] + [ConnectTask] == [ConnectTask];
    StepKept(s, Connect);
    StepKept(Step(s, Connect), RunTask(true));
    FailuresCount(Run(s, [Connect, RunTask(true)]), k);
  }

  // ----- closing a connection

  // What stays of a connection that there was, or was not, when the application closed the client.
  predicate ClosedWith(s: State, hadCon: bool) {
    && Kept(s) && s.asked && s.join != ForConnect
    && if hadCon then s.hasCon || (s.link == NoLink && ConnectTask !in s.tasks) else !s.hasCon
  }

  lemma {:induction false} ClosedWithStays(s: State, es: seq<Event>, hadCon: bool)
    requires ClosedWith(s, hadCon) && Connect !in es
    ensures ClosedWith(Run(s, es), hadCon)
    decreases |es|
  {
    if es != [] {
      if Enabled(s, es[0]) {
        StepKept(s, es[0]);
      }
      ClosedWithStays(Step(s, es[0]), es[1..], hadCon);
    }
  }

  // Suppose the application closes the client, and does not connect it again, and all that this
  // dispatched is done. If a connection is left, it is being closed exactly if the client had it when
  // it was closed; that is, unless it was closing already, if it was open.
  lemma ClosingReachesConnection(before: seq<Event>, close: Event, after: seq<Event>)
    requires (close == Close || close == SyncClose) && Enabled(Run(INITIAL, before), close) && Connect !in after
    requires var t := Run(Step(Run(INITIAL, before), close), after); t.link == Live && t.tasks == []
    ensures var s := Run(INITIAL, before);
            var t := Run(Step(s, close), after);
            && (t.closeSent <==> s.hasCon)
            && (s.con != Closing ==> (t.closeSent <==> s.con == Opened))
  {
    var s := Run(INITIAL, before);
    RunKept(INITIAL, before);
    StepKept(s, close);
    ClosedWithStays(Step(s, close), after, s.hasCon);
  }

  // When all that the application's close dispatched is done and no connection is left, nothing keeps
  // the network thread: its loop can end, and a call that waits for it returns.
  lemma ClosedLoopEnds(es: seq<Event>)
    requires var s := Run(INITIAL, es); s.asked && s.tasks == [] && s.link == NoLink && s.running
    ensures var s := Run(INITIAL, es);
            var t := Step(s, LoopEnd);
            && !t.running
            && (s.join == ForClose ==> Enabled(t, SyncCloseJoined) && !Step(t, SyncCloseJoined).thread)
            && (s.join == ForConnect ==> Enabled(t, ConnectJoined) && Step(t, ConnectJoined).con == Opening)
  {
    RunKept(INITIAL, es);
  }

  // A close does not wait.
  lemma CloseReturns(es: seq<Event>)
    requires Enabled(Run(INITIAL, es), Close)
    ensures var s := Run(INITIAL, es);
            var t := Step(s, Close);
            t.con == Closing && t.join == NotJoining && t.tasks == s.tasks + [CloseTask]
  {}

  // A synchronous close waits for the network thread, if there is one.
  lemma SyncCloseJoins(es: seq<Event>)
    requires Enabled(Run(INITIAL, es), SyncClose)
    ensures var s := Run(INITIAL, es);
            var t := Step(s, SyncClose);
            && t.con == Closing && t.join == (if s.thread then ForClose else NotJoining)
            && t.tasks == s.tasks + [CloseTask]
  {}

  // ----- when connect() gets on

  // No connection is on its way, although the client is connecting.
  predicate Stuck(s: State) { s.con == Opening && s.link == NoLink && ConnectTask !in s.tasks && s.thread }

  // connect() has an effect exactly in a client that never was connected or was closed since. In one
  // that connects or is open it does nothing, and the client is as it was.
  lemma ConnectHasEffect(es: seq<Event>)
    requires Enabled(Run(INITIAL, es), Connect)
    ensures var s := Run(INITIAL, es);
            Step(s, Connect) == s <==> s.thread && (s.con == Opening || s.con == Opened)
  {
    RunKept(INITIAL, es);
  }

  // A client that is stuck stays so until the application closes it, however often it connects it.
  lemma {:induction false} StuckStays(s: State, es: seq<Event>)
    requires Kept(s) && Stuck(s) && Close !in es && SyncClose !in es
    ensures Stuck(Run(s, es))
    decreases |es|
  {
    if es != [] {
      if Enabled(s, es[0]) {
        StepKept(s, es[0]);
      }
      StuckStays(Step(s, es[0]), es[1..]);
    }
  }

  // A connecting client is stuck exactly from a connection object on that cannot be made.
  lemma StuckAfterFailure(s: State, e: Event)
    requires Kept(s) && Enabled(s, e) && !Stuck(s)
    ensures Stuck(Handled(s, e)) <==>
              || (e == RunTask(false) && s.tasks[0] == ConnectTask && s.con == Opening)
              || (e == TimeoutReconnect(false) && s.con == Closed)
  {
    if e.RunTask? {
      TaskKept(s, e.connects);
      var rest := s.tasks[1..];
      assert s.tasks == [s.tasks[0]] + rest;
    }
  }

  // This happens: the first connection object cannot be made, the loop ends, and connect() does nothing.
  lemma ConnectingGetsStuck() returns (es: seq<Event>)
    ensures var s := Run(INITIAL, es); Stuck(s) && !s.running && Enabled(s, Connect) && Step(s, Connect) == s
  {
    es := [];
    es := RunMore(es, Connect);
    es := RunMore(es, RunTask(false));
    assert Run(INITIAL, es).tasks == [];
    es := RunMore(es, LoopEnd);
  }

  // ----- connections that open too late

  predicate Stranded(s: State) { s.con == Closing && s.link == Live && !s.hasCon && !s.closeSent && s.running }

  // A connection that opened while the client was closing is closed by nothing that the client does:
  // until the server ends it, the network thread goes on and a call of connect() does not return.
  lemma {:induction false} StrandedStays(s: State, es: seq<Event>)
    requires Kept(s) && Stranded(s) && forall i | 0 <= i < |es| :: !es[i].OnClose?
    ensures Stranded(Run(s, es)) && !Enabled(Run(s, es), ConnectJoined)
    decreases |es|
  {
    if es != [] {
      if Enabled(s, es[0]) {
        StepKept(s, es[0]);
      }
      StrandedStays(Step(s, es[0]), es[1..]);
    }
  }

  lemma {:induction false} RunAppend(s: State, es: seq<Event>, e: Event)
    ensures Run(s, es + [e]) == Step(Run(s, es), e)
    decreases |es|
  {
    if es == [] {
      assert [] + [e] == [e] && [e][1..] == [];
    } else {
      assert (es + [e])[1..] == es[1..] + [e];
      RunAppend(Step(s, es[0]), es[1..], e);
    }
  }

  // And this happens: the application closes the client while it is connecting.
  lemma ClosingEarlyStrands() returns (es: seq<Event>)
    ensures Stranded(Run(INITIAL, es)) && Run(INITIAL, es).tasks == []
  {
    es := [];
    es := RunMore(es, Connect);
    es := RunMore(es, RunTask(true));
    assert Run(INITIAL, es).link == Attempting;
    es := RunMore(es, Close);
    es := RunMore(es, RunTask(true));
    assert Run(INITIAL, es).con == Closing && Run(INITIAL, es).tasks == [];
    es := RunMore(es, OnOpen);
  }

  lemma RunMore(es: seq<Event>, e: Event) returns (longer: seq<Event>)
    ensures longer == es + [e] && Run(INITIAL, longer) == Step(Run(INITIAL, es), e)
  {
    longer := es + [e];
    RunAppend(INITIAL, es, e);
  }

  // ----- the object

  // What a listener of the application is told.
  datatype Notice =
    | Silent | ConnectionOpen | WillReconnect(made: nat, delay: nat) | Reconnecting | Failed | ClosedNormally | Dropped

  class Client {
    var con: ConState
    var hasCon: bool
    var timer: bool
    var thread: bool
    var made: nat
    var attempts: nat
    var delays: Delays
    // The network and its thread.
    var link: Link
    var closeSent: bool
    var tasks: seq<Task>
    var running: bool
    var join: Join
    ghost var asked: bool

    ghost function Now(): State
      reads this
    {
      State(con, hasCon, link, closeSent, timer, tasks, thread, running, join, made, attempts, asked)
    }

    constructor ()
      ensures Now() == INITIAL && delays == DEFAULT
    {
      con, hasCon, timer, thread, made, attempts, delays := Closed, false, false, false, 0, 0xFFFF_FFFF, DEFAULT;
      link, closeSent, tasks, running, join, asked := NoLink, false, [], false, NotJoining, false;
    }

    method SetReconnectDelay(millis: nat)
      requires Ordered(delays)
      modifies this`delays
      ensures delays == SetDelay(old(delays), millis) && Ordered(delays) && delays.delay == millis
    {
      delays := delays.(delay := millis);
      if delays.delayMax < millis { delays := delays.(delayMax := millis); }
    }

    method SetReconnectDelayMax(millis: nat)
      requires Ordered(delays)
      modifies this`delays
      ensures delays == SetDelayMax(old(delays), millis) && Ordered(delays) && delays.delayMax == millis
    {
      delays := delays.(delayMax := millis);
      if delays.delay > millis { delays := delays.(delay := millis); }
    }

    // Whether the call returns at once; otherwise it waits for the network thread.
    method ConnectCall() returns (done: bool)
      requires Enabled(Now(), Connect)
      modifies this
      ensures Now() == Handled(old(Now()), Connect) && delays == old(delays)
      ensures done == (join == NotJoining)
    {
      timer := false;
      if thread {
        if con == Closing || con == Closed {
          join := ForConnect;
          return false;
        }
        return true;
      }
      StartConnecting();
      return true;
    }

    method StartConnecting()
      modifies this
      ensures Now() == StartConnect(old(Now())) && delays == old(delays)
    {
      join := NotJoining;
      con := Opening;
      made := 0;
      tasks := tasks + [ConnectTask];
      thread, running := true, true;
      asked := false;
    }

    method CloseCall()
      requires Enabled(Now(), Close)
      modifies this
      ensures Now() == Handled(old(Now()), Close) && delays == old(delays)
    {
      con, asked := Closing, true;
      tasks := tasks + [CloseTask];
    }

    method DoClose()
      modifies this`timer, this`closeSent
      ensures Now() == CloseImpl(old(Now()))
    {
      timer := false;
      if hasCon { closeSent := true; }
    }

    // Connects, unless no connection object can be made.
    method DoConnect(connects: bool) returns (notice: Notice)
      modifies this`link
      ensures Now() == ConnectImpl(old(Now()), connects) && notice == if connects then Silent else Failed
    {
      if connects {
        link := Attempting;
        return Silent;
      }
      return Failed;
    }

    method HandleTask(connects: bool) returns (notice: Notice)
      requires Enabled(Now(), RunTask(connects))
      modifies this
      ensures Now() == Handled(old(Now()), RunTask(connects)) && delays == old(delays)
      ensures notice == if old(tasks)[0].ConnectTask? && !connects then Failed else Silent
    {
      notice := Silent;
      var task := tasks[0];
      tasks := tasks[1..];
      match task {
        case ConnectTask => notice := DoConnect(connects);
        case CloseTask => DoClose();
      }
    }

    method HandleOpen() returns (notice: Notice)
      requires Enabled(Now(), OnOpen)
      modifies this
      ensures Now() == Handled(old(Now()), OnOpen) && delays == old(delays)
      ensures notice == if old(con) == Closing then Silent else ConnectionOpen
    {
      link := Live;
      if con == Closing {
        con, asked := Closing, true;
        DoClose();
        return Silent;
      }
      con := Opened;
      hasCon := true;
      made := 0;
      return ConnectionOpen;
    }

    method HandleFail() returns (notice: Notice)
      requires Enabled(Now(), OnFail)
      modifies this
      ensures Now() == Handled(old(Now()), OnFail) && delays == old(delays)
      ensures notice == if old(con) == Closing then Silent
                        else if made < attempts then WillReconnect(made, NextDelay(delays, made))
                        else Failed
    {
      link := NoLink;
      if con == Closing {
        con, asked := Closing, true;
        DoClose();
        return Silent;
      }
      hasCon := false;
      con := Closed;
      if made < attempts {
        notice := WillReconnect(made, NextDelay(delays, made));
        timer := true;
      } else {
        notice := Failed;
      }
    }

    method HandleClose(normal: bool) returns (notice: Notice)
      requires Enabled(Now(), OnClose(normal))
      modifies this
      ensures Now() == Handled(old(Now()), OnClose(normal)) && delays == old(delays)
      ensures notice == if normal || old(con) == Closing then ClosedNormally
                        else if made < attempts then WillReconnect(made, NextDelay(delays, made))
                        else Dropped
    {
      link, closeSent := NoLink, false;
      var was := con;
      con := Closed;
      hasCon := false;
      if normal || was == Closing {
        notice := ClosedNormally;
      } else if made < attempts {
        notice := WillReconnect(made, NextDelay(delays, made));
        timer := true;
      } else {
        notice := Dropped;
      }
    }

    method HandleTimeout(connects: bool) returns (notice: Notice)
      requires Enabled(Now(), TimeoutReconnect(connects))
      modifies this
      ensures Now() == Handled(old(Now()), TimeoutReconnect(connects)) && delays == old(delays)
      ensures notice == if old(con) != Closed then Silent else if connects then Reconnecting else Failed
    {
      timer := false;
      notice := Silent;
      if con == Closed {
        con := Opening;
        made := made + 1;
        var failed := DoConnect(connects);
        notice := if failed == Failed then Failed else Reconnecting;
      }
    }
  }
}
