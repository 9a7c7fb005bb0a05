/** The send rings and the reconnects of src/infer_realtime_ws.c. Contexts are separate but for the
    count of reconnects, which the file keeps once for all of them. */
module WsRing {
  import opened Wrappers
  import opened Division

  const MAX_RECONNECT_TIMES := 3
  const VOLC_OK := 0

  /** capacity: how many messages the ring holds; pingInterval: None when no pings are configured. */
  datatype Config = Config(capacity: nat, pingInterval: Option<nat>)

  /** accepted: messages the ring took; written: messages written in full; errorConnects and
      sendConnects: connect calls made for CONNECTION_ERROR and for a send; pings: pings written. */
  datatype Ws = Ws(config: Config, connected: bool, tryConnect: bool, pingCount: nat, ring: seq<string>,
                   accepted: seq<string>, written: seq<string>, errorConnects: nat, sendConnects: nat, pings: nat)

  datatype System = System(contexts: seq<Ws>, reconnectTimes: nat)

  function Init(config: Config): Ws {
    Ws(config, false, false, 0, [], [], [], 0, 0, 0)
  }

  function Start(configs: seq<Config>): System {
    System(seq(|configs|, i requires 0 <= i < |configs| => Init(configs[i])), 0)
  }

  /** m is what lws_write returns. */
  datatype Callback =
    | Send(message: string)
    | Writeable(m: int)
    | Established
    | ConnectionError
    | Closed
    | Timer

  /** The context a call or callback is for. */
  datatype Event = Event(context: nat, what: Callback)

  function SendStep(s: Ws, message: string): Ws {
    var t := if !s.connected && s.tryConnect then s.(tryConnect := false, sendConnects := s.sendConnects + 1) else s;
    if |t.ring| < s.config.capacity then t.(ring := t.ring + [message], accepted := t.accepted + [message]) else t
  }

  function WriteStep(s: Ws, m: int): Ws {
    if !s.connected || s.ring == [] || m < |s.ring[0]| then s
    else s.(ring := s.ring[1..], written := s.written + [s.ring[0]])
  }

  function TimerStep(s: Ws): Ws {
    if !s.connected || s.config.pingInterval.None? then s
    else if s.pingCount == s.config.pingInterval.value then s.(pingCount := 0, pings := s.pings + 1)
    else s.(pingCount := s.pingCount + 1)
  }

  function ErrorStep(s: Ws, reconnectTimes: nat): Ws {
    s.(connected := false, errorConnects := s.errorConnects + if reconnectTimes < MAX_RECONNECT_TIMES then 1 else 0)
  }

  /** What a callback does to its context. */
  function Local(s: Ws, what: Callback, reconnectTimes: nat): Ws {
    match what
    case Send(message) => SendStep(s, message)
    case Writeable(m) => WriteStep(s, m)
    case Established => s.(connected := true, tryConnect := true, pingCount := 0)
    case ConnectionError => ErrorStep(s, reconnectTimes)
    case Closed => s.(connected := false)
    case Timer => TimerStep(s)
  }

  /** What it does to the shared count. */
  function Shared(what: Callback, reconnectTimes: nat): nat {
    match what
    case Established => 0
    case ConnectionError => if reconnectTimes < MAX_RECONNECT_TIMES then reconnectTimes + 1 else reconnectTimes
    case _ => reconnectTimes
  }

  function Step(s: System, e: Event): System {
    if e.context < |s.contexts| then
      System(s.contexts[e.context := Local(s.contexts[e.context], e.what, s.reconnectTimes)],
             Shared(e.what, s.reconnectTimes))
    else s
  }

  function Run(s: System, events: seq<Event>): (t: System)
    ensures |t.contexts| == |s.contexts|
  {
    if events == [] then s else Step(Run(s, events[..|events| - 1]), events[|events| - 1])
  }

  // ---------- every run ----------

  /** What was written in full and then what the ring holds is what was accepted, in order. */
  ghost predicate Conserved(s: Ws) {
    s.written + s.ring == s.accepted && |s.ring| <= s.config.capacity
  }

  ghost predicate Inv(s: System) {
    && s.reconnectTimes <= MAX_RECONNECT_TIMES
    && forall i :: 0 <= i < |s.contexts| ==> Conserved(s.contexts[i])
  }

  lemma LocalKeeps(s: Ws, what: Callback, reconnectTimes: nat)
    requires Conserved(s)
    ensures Conserved(Local(s, what, reconnectTimes))
  {
    if what.Writeable? && s.ring != [] {
      assert s.ring == [s.ring[0]] + s.ring[1..];
    }
  }

  lemma {:induction false} RunKeeps(s: System, events: seq<Event>)
    requires Inv(s)
    ensures Inv(Run(s, events))
    decreases |events|
  {
    hide Conserved, Local;
    if events != [] {
      var init, e := events[..|events| - 1], events[|events| - 1];
      RunKeeps(s, init);
      var t := Run(s, init);
      if e.context < |t.contexts| {
        LocalKeeps(t.contexts[e.context], e.what, t.reconnectTimes);
      }
    }
  }

  /** On every run from the start, in every context, nothing accepted is lost, doubled or reordered. */
  lemma {:induction false} RunConserves(configs: seq<Config>, events: seq<Event>, i: nat)
    requires i < |configs|
    ensures var s := Run(Start(configs), events).contexts[i];
            s.written + s.ring == s.accepted && s.written <= s.accepted && |s.ring| <= s.config.capacity
  {
    assert Inv(Start(configs));
    RunKeeps(Start(configs), events);
    assert Conserved(Run(Start(configs), events).contexts[i]);
  }

  function Times(n: nat, e: Event): seq<Event> {
    seq(n, i => e)
  }

  lemma TimesOneMore(n: nat, e: Event)
    requires n > 0
    ensures Times(n, e)[..n - 1] == Times(n - 1, e) && Times(n, e)[n - 1] == e
  {}

  /** Each successful write takes one message: as many of them as the ring holds empty it. */
  lemma {:induction false} WritesDrain(s: System, i: nat, n: nat, m: int)
    requires i < |s.contexts| && Conserved(s.contexts[i]) && s.contexts[i].connected && n <= |s.contexts[i].ring|
    requires forall j :: 0 <= j < |s.contexts[i].ring| ==> |s.contexts[i].ring[j]| <= m
    ensures var c := s.contexts[i]; var t := Run(s, Times(n, Event(i, Writeable(m)))).contexts[i];
            && t.connected && t.ring == c.ring[n..] && t.written == c.written + c.ring[..n]
            && (n == |c.ring| ==> t.written == c.accepted)
    decreases n
  {
    hide Local;
    var c := s.contexts[i];
    if n > 0 {
      WritesDrain(s, i, n - 1, m);
      TimesOneMore(n, Event(i, Writeable(m)));
      var t := Run(s, Times(n - 1, Event(i, Writeable(m))));
      WriteOne(t.contexts[i], m, t.reconnectTimes);
      assert c.ring[..n] == c.ring[..n - 1] + [c.ring[n - 1]];
    }
    if n == |c.ring| {
      assert c.ring[..n] == c.ring;
    }
  }

  lemma WriteOne(s: Ws, m: int, reconnectTimes: nat)
    requires s.connected && s.ring != [] && |s.ring[0]| <= m
    ensures Local(s, Writeable(m), reconnectTimes) == s.(ring := s.ring[1..], written := s.written + [s.ring[0]])
  {}

  // ---------- connects between ESTABLISHED events ----------

  /** The connects that followed connection errors, over all contexts. */
  function ErrorConnects(contexts: seq<Ws>): nat {
    if contexts == [] then 0 else ErrorConnects(contexts[..|contexts| - 1]) + contexts[|contexts| - 1].errorConnects
  }

  lemma {:induction false} ErrorConnectsUpdate(contexts: seq<Ws>, i: nat, s: Ws)
    requires i < |contexts|
    ensures ErrorConnects(contexts[i := s]) + contexts[i].errorConnects == ErrorConnects(contexts) + s.errorConnects
  {
    var n := |contexts| - 1;
    if i == n {
      assert contexts[i := s][..n] == contexts[..n];
    } else {
      ErrorConnectsUpdate(contexts[..n], i, s);
      assert contexts[i := s][..n] == contexts[..n][i := s];
    }
  }

  ghost predicate NoneEstablished(events: seq<Event>) {
    forall i :: 0 <= i < |events| ==> !events[i].what.Established?
  }

  lemma {:induction false} ConnectsCounted(s: System, events: seq<Event>)
    requires s.reconnectTimes <= MAX_RECONNECT_TIMES && NoneEstablished(events)
    ensures var t := Run(s, events);
            && ErrorConnects(t.contexts) - ErrorConnects(s.contexts) == t.reconnectTimes - s.reconnectTimes
            && t.reconnectTimes <= MAX_RECONNECT_TIMES
    decreases |events|
  {
    hide ErrorConnects, SendStep, WriteStep, TimerStep;
    if events != [] {
      var init, e := events[..|events| - 1], events[|events| - 1];
      ConnectsCounted(s, init);
      var t := Run(s, init);
      if e.context < |t.contexts| {
        var c := t.contexts[e.context];
        LocalConnects(c, e.what, t.reconnectTimes);
        ErrorConnectsUpdate(t.contexts, e.context, Local(c, e.what, t.reconnectTimes));
      }
    }
  }

  lemma LocalConnects(s: Ws, what: Callback, reconnectTimes: nat)
    ensures what.ConnectionError? || Local(s, what, reconnectTimes).errorConnects == s.errorConnects
  {}

  /** Between two ESTABLISHED events, whichever contexts they are for, at most 3 connects follow
      connection errors, those of all contexts together. */
  lemma ErrorConnectsBounded(s: System, i: nat, events: seq<Event>)
    requires i < |s.contexts| && NoneEstablished(events)
    ensures var e := Step(s, Event(i, Established)); var t := Run(e, events);
            0 <= ErrorConnects(t.contexts) - ErrorConnects(e.contexts) <= 3
  {
    ConnectsCounted(Step(s, Event(i, Established)), events);
  }

  /** Between two ESTABLISHED events of a context at most one of its sends connects. */
  lemma {:induction false} SendConnectsBounded(s: System, i: nat, events: seq<Event>)
    requires i < |s.contexts| && Event(i, Established) !in events
    ensures var c, d := s.contexts[i], Run(s, events).contexts[i];
            c.sendConnects <= d.sendConnects
            && d.sendConnects + (if d.tryConnect then 1 else 0) == c.sendConnects + (if c.tryConnect then 1 else 0)
    decreases |events|
  {
    if events != [] {
      SendConnectsBounded(s, i, events[..|events| - 1]);
      assert events[|events| - 1] in events;
    }
  }

  /** One of these events is a send of context i. */
  ghost predicate Sends(events: seq<Event>, i: nat) {
    exists k :: 0 <= k < |events| && events[k].context == i && events[k].what.Send?
  }

  lemma SendsLast(events: seq<Event>, e: Event, i: nat)
    ensures Sends(events + [e], i) <==> Sends(events, i) || (e.context == i && e.what.Send?)
  {
    var all := events + [e];
    assert all[|events|] == e && forall k :: 0 <= k < |events| ==> all[k] == events[k];
    if Sends(events, i) {
      var k :| 0 <= k < |events| && events[k].context == i && events[k].what.Send?;
      assert all[k].what.Send?;
    }
  }

  /** After a connection is lost, until its own ESTABLISHED: nothing is written and nothing pings. */
  lemma {:induction false} SilentWhenLost(s: System, i: nat, lost: Callback, events: seq<Event>)
    requires i < |s.contexts| && lost in {Closed, ConnectionError} && Event(i, Established) !in events
    ensures var d := Run(Step(s, Event(i, lost)), events).contexts[i];
            !d.connected && d.written == s.contexts[i].written && d.pings == s.contexts[i].pings
    decreases |events|
  {
    if events != [] {
      SilentWhenLost(s, i, lost, events[..|events| - 1]);
      assert events[|events| - 1] in events;
    }
  }

  /** On an established connection that is lost, exactly the first send connects: one connect if there is
      a send at all, and none without. */
  lemma {:induction false} FirstSendConnects(s: System, i: nat, lost: Callback, events: seq<Event>)
    requires i < |s.contexts| && lost in {Closed, ConnectionError} && Event(i, Established) !in events
    ensures var d := Run(Step(Step(s, Event(i, Established)), Event(i, lost)), events).contexts[i];
            && d.sendConnects == s.contexts[i].sendConnects + (if Sends(events, i) then 1 else 0)
            && d.tryConnect == !Sends(events, i)
    decreases |events|
  {
    hide Sends;
    if events == [] {
      assert !Sends([], i) by { NoSends(i); }
    } else {
      var init, e := events[..|events| - 1], events[|events| - 1];
      assert events == init + [e];
      FirstSendConnects(s, i, lost, init);
      SilentWhenLost(Step(s, Event(i, Established)), i, lost, init);
      SendsLast(init, e, i);
      assert e in events;
    }
  }

  lemma NoSends(i: nat)
    ensures !Sends([], i)
  {}

  /** While a connection lives no send connects. */
  lemma {:induction false} LiveSends(s: System, i: nat, events: seq<Event>)
    requires i < |s.contexts| && Event(i, Closed) !in events && Event(i, ConnectionError) !in events
    ensures var d := Run(Step(s, Event(i, Established)), events).contexts[i];
            d.connected && d.sendConnects == s.contexts[i].sendConnects
    decreases |events|
  {
    if events != [] {
      LiveSends(s, i, events[..|events| - 1]);
      assert events[|events| - 1] in events;
    }
  }

  /** A WRITEABLE takes the head of the ring exactly when the context is connected and the whole head is
      written; otherwise it changes nothing. */
  lemma WrittenExactly(s: System, i: nat, m: int)
    requires i < |s.contexts|
    ensures var c, d := s.contexts[i], Step(s, Event(i, Writeable(m))).contexts[i];
            && (d != c <==> c.connected && c.ring != [] && |c.ring[0]| <= m)
            && (d != c ==> [c.ring[0]] + d.ring == c.ring && d.written == c.written + [c.ring[0]])
  {
    var c, d := s.contexts[i], Step(s, Event(i, Writeable(m))).contexts[i];
    if c.connected && c.ring != [] && |c.ring[0]| <= m {
      assert |d.ring| < |c.ring|;
    }
  }

  /** The bound is reached: of n errors after an ESTABLISHED the first three reconnect, no later one. */
  lemma {:induction false} ErrorsReconnect(s: System, i: nat, j: nat, n: nat)
    requires i < |s.contexts| && j < |s.contexts|
    ensures var e := Step(s, Event(i, Established));
            var t := Run(e, Times(n, Event(j, ConnectionError)));
            t.contexts[j].errorConnects - e.contexts[j].errorConnects == t.reconnectTimes == if n <= 3 then n else 3
    decreases n
  {
    if n > 0 {
      ErrorsReconnect(s, i, j, n - 1);
      TimesOneMore(n, Event(j, ConnectionError));
    }
  }

  // ---------- connects of one context ----------

  /** How many of these events are an ESTABLISHED of one of n contexts. */
  function Resets(n: nat, events: seq<Event>): nat {
    if events == [] then 0
    else
      var e := events[|events| - 1];
      Resets(n, events[..|events| - 1]) + if e.context < n && e.what.Established? then 1 else 0
  }

  lemma {:induction false} ResetsConcat(n: nat, a: seq<Event>, b: seq<Event>)
    ensures Resets(n, a + b) == Resets(n, a) + Resets(n, b)
    decreases |b|
  {
    if b == [] {
      assert a + b == a;
    } else {
      assert (a + b)[..|a + b| - 1] == a + b[..|b| - 1];
      ResetsConcat(n, a, b[..|b| - 1]);
    }
  }

  lemma {:induction false} RunConcat(s: System, a: seq<Event>, b: seq<Event>)
    ensures Run(s, a + b) == Run(Run(s, a), b)
    decreases |b|
  {
    hide Step;
    if b == [] {
      assert a + b == a;
    } else {
      assert (a + b)[..|a + b| - 1] == a + b[..|b| - 1];
      RunConcat(s, a, b[..|b| - 1]);
    }
  }

  /** Each ESTABLISHED, of whichever context, allows a context three more connects. */
  lemma {:induction false} OneContext(s: System, i: nat, events: seq<Event>)
    requires i < |s.contexts| && s.reconnectTimes <= MAX_RECONNECT_TIMES
    ensures var t := Run(s, events);
            && t.reconnectTimes <= MAX_RECONNECT_TIMES
            && t.contexts[i].errorConnects + s.reconnectTimes
               <= s.contexts[i].errorConnects + 3 * Resets(|s.contexts|, events) + t.reconnectTimes
    decreases |events|
  {
    hide SendStep, WriteStep, TimerStep;
    if events != [] {
      var init, e := events[..|events| - 1], events[|events| - 1];
      OneContext(s, i, init);
      var t := Run(s, init);
      if e.context < |t.contexts| {
        LocalConnects(t.contexts[e.context], e.what, t.reconnectTimes);
      }
    }
  }

  /** Three errors of context i, and m times an ESTABLISHED of context j and three more of them. */
  function Schedule(i: nat, j: nat, m: nat): seq<Event> {
    if m == 0 then Times(3, Event(i, ConnectionError))
    else Schedule(i, j, m - 1) + ([Event(j, Established)] + Times(3, Event(i, ConnectionError)))
  }

  lemma {:induction false} ErrorsOnly(n: nat, i: nat, k: nat)
    ensures Resets(n, Times(k, Event(i, ConnectionError))) == 0
    decreases k
  {
    if k > 0 {
      ErrorsOnly(n, i, k - 1);
      TimesOneMore(k, Event(i, ConnectionError));
    }
  }

  lemma {:induction false} ScheduleResets(n: nat, i: nat, j: nat, m: nat)
    requires j < n && j != i
    ensures Resets(n, Schedule(i, j, m)) == m && Event(i, Established) !in Schedule(i, j, m)
    decreases m
  {
    hide Resets;
    var errors := Times(3, Event(i, ConnectionError));
    ErrorsOnly(n, i, 3);
    if m > 0 {
      ScheduleResets(n, i, j, m - 1);
      ResetsConcat(n, [Event(j, Established)], errors);
      ResetsConcat(n, Schedule(i, j, m - 1), [Event(j, Established)] + errors);
      assert Resets(n, [Event(j, Established)]) == 1 by { OneReset(n, j); }
    }
  }

  lemma OneReset(n: nat, j: nat)
    requires j < n
    ensures Resets(n, [Event(j, Established)]) == 1
  {
    assert [Event(j, Established)][..0] == [];
  }

  lemma RunOne(s: System, e: Event)
    ensures Run(s, [e]) == Step(s, e)
  {
    assert [e][..0] == [];
  }

  /** With no more than the ESTABLISHED of another context in between, the bound is reached. */
  lemma {:induction false} Reached(s: System, i: nat, j: nat, m: nat)
    requires i < |s.contexts| && j < |s.contexts| && i != j
    ensures var e := Step(s, Event(i, Established));
            Run(e, Schedule(i, j, m)).contexts[i].errorConnects == e.contexts[i].errorConnects + 3 * (m + 1)
    decreases m
  {
    hide Run, Times;
    ErrorsReconnect(s, i, i, 3);
    if m > 0 {
      Reached(s, i, j, m - 1);
      var e := Step(s, Event(i, Established));
      var t := Run(e, Schedule(i, j, m - 1));
      var errors := Times(3, Event(i, ConnectionError));
      RunConcat(e, Schedule(i, j, m - 1), [Event(j, Established)] + errors);
      RunConcat(t, [Event(j, Established)], errors);
      RunOne(t, Event(j, Established));
      ErrorsReconnect(t, j, i, 3);
    }
  }

  /** On every run from s without an ESTABLISHED of context i, and with m of other contexts, at most
      this many errors of context i connect. */
  ghost predicate AtMost(s: System, i: nat, m: nat, bound: nat)
    requires i < |s.contexts|
  {
    forall events | Resets(|s.contexts|, events) == m && Event(i, Established) !in events ::
      Run(s, events).contexts[i].errorConnects <= s.contexts[i].errorConnects + bound
  }

  /** Between two ESTABLISHED events of a context, with m of other contexts in between, the least bound
      on its connects after errors is 3 * (m + 1). */
  lemma ContextBoundExactly(s: System, i: nat, j: nat, m: nat, bound: nat)
    requires i < |s.contexts| && j < |s.contexts| && i != j
    ensures AtMost(Step(s, Event(i, Established)), i, m, bound) <==> bound >= 3 * (m + 1)
  {
    hide Run, Resets, Schedule;
    var e := Step(s, Event(i, Established));
    forall events | Resets(|s.contexts|, events) == m
      ensures Run(e, events).contexts[i].errorConnects <= e.contexts[i].errorConnects + 3 * (m + 1)
    {
      OneContext(e, i, events);
    }
    Reached(s, i, j, m);
    ScheduleResets(|s.contexts|, i, j, m);
  }

  /** So 3 connects bound a context on their own if and only if no other context has an ESTABLISHED
      in between. */
  lemma ThreeExactly(s: System, i: nat, j: nat, m: nat)
    requires i < |s.contexts| && j < |s.contexts| && i != j
    ensures AtMost(Step(s, Event(i, Established)), i, m, 3) <==> m == 0
  {
    hide AtMost, Step;
    ContextBoundExactly(s, i, j, m, 3);
  }

  /** Two contexts, one ESTABLISHED of the other: six connects. */
  lemma OtherContextResets(s: System)
    requires |s.contexts| == 2
    ensures var errors := Times(3, Event(0, ConnectionError));
            var e := Step(s, Event(0, Established));
            var t := Run(e, errors + ([Event(1, Established)] + errors));
            t.contexts[0].errorConnects - e.contexts[0].errorConnects == 6
  {
    hide Run, Times;
    Reached(s, 0, 1, 1);
  }

  // ---------- pings ----------

  /** With an interval of p, every (p + 1)-th timer tick of a connection pings. */
  lemma {:induction false} PingsEvery(s: System, i: nat, n: nat, p: nat)
    requires i < |s.contexts| && s.contexts[i].config.pingInterval == Some(p)
    ensures var e := Step(s, Event(i, Established));
            var c, d := e.contexts[i], Run(e, Times(n, Event(i, Timer))).contexts[i];
            && d.connected && d.config == c.config
            && d.pings - c.pings == n / (p + 1) && d.pingCount == n % (p + 1)
    decreases n
  {
    if n > 0 {
      PingsEvery(s, i, n - 1, p);
      TimesOneMore(n, Event(i, Timer));
      NextDivMod(n - 1, p + 1);
    }
  }

  // ---------- the callback and the send call ----------

  /** The static reconnect_times. */
  class Counter {
    var times: nat

    constructor ()
      ensures times == 0
    {
      times := 0;
    }
  }

  class WsContext {
    const config: Config
    const reconnectTimes: Counter
    var connected: bool
    var tryConnect: bool
    var pingCount: nat
    var sendRing: seq<string>
    ghost var accepted: seq<string>
    ghost var written: seq<string>
    ghost var errorConnects: nat
    ghost var sendConnects: nat
    ghost var pings: nat

    ghost function State(): Ws
      reads this
    {
      Ws(config, connected, tryConnect, pingCount, sendRing, accepted, written, errorConnects, sendConnects, pings)
    }

    constructor (config: Config, reconnectTimes: Counter)
      ensures State() == Init(config) && this.reconnectTimes == reconnectTimes
    {
      this.config := config;
      this.reconnectTimes := reconnectTimes;
      connected, tryConnect, pingCount, sendRing := false, false, 0, [];
      accepted, written, errorConnects, sendConnects, pings := [], [], 0, 0, 0;
    }

    /** aigw_ws_send_request. It reports success for a message that is dropped as for one that is
        taken; a message is dropped exactly when the ring is full. */
    method SendRequest(message: string) returns (r: int)
      modifies this
      ensures State() == Local(old(State()), Send(message), reconnectTimes.times)
      ensures r == VOLC_OK
      ensures accepted == old(accepted) + (if |old(sendRing)| < config.capacity then [message] else [])
      ensures sendRing == old(sendRing) + (if |old(sendRing)| < config.capacity then [message] else [])
    {
      if !connected && tryConnect {
        sendConnects := sendConnects + 1;
        tryConnect := false;
      }
      if |sendRing| < config.capacity {
        sendRing := sendRing + [message];
        accepted := accepted + [message];
      }
      return VOLC_OK;
    }

    /** CLIENT_WRITEABLE; m is what the write of the head returns. The result is the callback's. */
    method OnWriteable(m: int) returns (r: int)
      modifies this`sendRing, this`written
      ensures State() == Local(old(State()), Writeable(m), reconnectTimes.times)
      ensures r == if old(connected) && (old(sendRing) == [] || m >= |old(sendRing)[0]|) then 0 else -1
    {
      if !connected {
        return -1;
      }
      if sendRing != [] {
        if m < |sendRing[0]| {
          return -1;
        }
        written := written + [sendRing[0]];
        sendRing := sendRing[1..];
      }
      return 0;
    }

    /** CLIENT_ESTABLISHED. */
    method OnEstablished()
      modifies this, reconnectTimes
      ensures State() == Local(old(State()), Established, old(reconnectTimes.times))
      ensures reconnectTimes.times == Shared(Established, old(reconnectTimes.times))
    {
      connected := true;
      tryConnect := true;
      pingCount := 0;
      reconnectTimes.times := 0;
    }

    /** CLIENT_CONNECTION_ERROR. */
    method OnConnectionError()
      modifies this, reconnectTimes
      ensures State() == Local(old(State()), ConnectionError, old(reconnectTimes.times))
      ensures reconnectTimes.times == Shared(ConnectionError, old(reconnectTimes.times))
    {
      connected := false;
      if reconnectTimes.times < MAX_RECONNECT_TIMES {
        reconnectTimes.times := reconnectTimes.times + 1;
        errorConnects := errorConnects + 1;
      }
    }

    /** CLIENT_CLOSED and CLOSED. */
    method OnClosed()
      modifies this`connected
      ensures State() == Local(old(State()), Closed, reconnectTimes.times)
    {
      connected := false;
    }

    /** TIMER, once a second. */
    method OnTimer()
      modifies this`pingCount, this`pings
      ensures State() == Local(old(State()), Timer, reconnectTimes.times)
    {
      if connected && config.pingInterval.Some? {
        var due := pingCount == config.pingInterval.value;
        pingCount := pingCount + 1;
        if due {
          pingCount := 0;
          pings := pings + 1;
        }
      }
    }
  }
}
