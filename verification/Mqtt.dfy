/** Runs of the MQTT client of src/iot/iot_mqtt.c: one step for each API call or callback, and what
    holds after every sequence of them. */
module Mqtt {
  import opened Wrappers
  import P = MqttPub
  import S = MqttSub
  import O = MqttOrder

  datatype State = State(pub: P.Pub, sub: S.Sub)

  const INIT := State(P.EMPTY, S.EMPTY)

  /** pubFails: which publish sends return an error, by list index; subFails: whether the subscribe
      send does; connects: whether the connect call succeeds. */
  datatype Event =
    | Publish(qos: int)
    | Subscribe(topicMap: S.TopicMap)
    | Writeable(pubFails: seq<bool>, subFails: bool)
    | Ack
    | Subscribed
    | Established
    | Closed(autoReconnect: bool, connects: bool)
    | Reconnect(connects: bool)

  /** One kind of work for each WRITEABLE: nothing while a SUBACK is due, then subscriptions, and
      publishes only when no subscription is queued. */
  function WriteableStep(s: State, pubFails: seq<bool>, subFails: bool): State {
    if s.sub.waiting then s
    else if s.sub.pending != [] then s.(sub := S.Writeable(s.sub, subFails))
    else s.(pub := P.Writeable(s.pub, pubFails))
  }

  function Step(s: State, e: Event): State {
    match e
    case Publish(qos) => s.(pub := P.Publish(s.pub, qos))
    case Subscribe(m) => s.(sub := S.Subscribe(s.sub, m))
    case Writeable(pubFails, subFails) => WriteableStep(s, pubFails, subFails)
    case Ack => s.(pub := P.Ack(s.pub))
    case Subscribed => s.(sub := S.Subscribed(s.sub))
    case Established => State(P.Established(s.pub), S.Established(s.sub))
    case Closed(auto, connects) => if auto then s.(sub := S.Reconnect(s.sub, connects)) else s
    case Reconnect(connects) => s.(sub := S.Reconnect(s.sub, connects))
  }

  function Run(events: seq<Event>): State {
    if events == [] then INIT
    else Step(Run(events[..|events| - 1]), events[|events| - 1])
  }

  lemma RunLast(events: seq<Event>, e: Event)
    ensures Run(events + [e]) == Step(Run(events), e)
  {
    assert (events + [e])[..|events|] == events;
  }

  // ---------- the invariants hold on every run ----------

  lemma StepKeeps(s: State, e: Event)
    requires P.Inv(s.pub) && S.Inv(s.sub)
    ensures P.Inv(Step(s, e).pub) && S.Inv(Step(s, e).sub)
  {
    hide P.Inv, S.Inv;
    match e
    case Publish(qos) => P.PublishKeeps(s.pub, qos);
    case Subscribe(m) => S.SubscribeKeeps(s.sub, m);
    case Writeable(pubFails, subFails) =>
      P.WriteableKeeps(s.pub, pubFails);
      S.WriteableKeeps(s.sub, subFails);
    case Ack => P.AckKeeps(s.pub);
    case Subscribed => S.SubscribedKeeps(s.sub);
    case Established =>
      P.EstablishedKeeps(s.pub);
      S.SubscribedKeeps(s.sub);
    case Closed(auto, connects) => S.ReconnectKeeps(s.sub, connects);
    case Reconnect(connects) => S.ReconnectKeeps(s.sub, connects);
  }

  lemma {:induction false} RunKeeps(events: seq<Event>)
    ensures P.Inv(Run(events).pub) && S.Inv(Run(events).sub)
  {
    if events == [] {
      assert P.Inv(P.EMPTY) && S.Inv(S.EMPTY);
    } else {
      RunKeeps(events[..|events| - 1]);
      StepKeeps(Run(events[..|events| - 1]), events[|events| - 1]);
    }
  }

  // ---------- accounting, safety and order over runs ----------

  /** How many ESTABLISHED events a run saw while a PUBACK was due. */
  function LostWaits(events: seq<Event>): nat {
    if events == [] then 0
    else
      var init := events[..|events| - 1];
      LostWaits(init) + if events[|events| - 1].Established? && Run(init).pub.waiting then 1 else 0
  }

  lemma {:induction false} OrphansAreLostWaits(events: seq<Event>)
    ensures Run(events).pub.orphans == LostWaits(events)
  {
    if events != [] {
      OrphansAreLostWaits(events[..|events| - 1]);
    }
  }

  /** On every run: no message goes to the wire twice; each accepted message is either unsent or was
      on the wire; the list has at most 11 entries; and the sent ones in it are as many as the waiting
      flag and the reconnects while waiting account for. */
  lemma RunSafe(events: seq<Event>)
    ensures var s := Run(events).pub;
            && |s.list| <= 11
            && (forall i, j :: 0 <= i < j < |s.wired| ==> s.wired[i] != s.wired[j])
            && (forall h: nat :: h < s.next <==> (h in s.wired || h in P.Unsent(s.list)))
            && (forall h: nat :: !(h in s.wired && h in P.Unsent(s.list)))
            && P.Awaiting(s.list) == (if s.waiting then 1 else 0) + LostWaits(events)
  {
    hide P.Unsent, P.Awaiting, P.Accounted;
    RunKeeps(events);
    P.OnceOnly(Run(events).pub);
    OrphansAreLostWaits(events);
  }

  /** A run that ends with iot_mqtt_deinit frees every accepted copy exactly once. */
  lemma RunFrees(events: seq<Event>)
    ensures var s := P.Deinit(Run(events).pub);
            && (forall i, j :: 0 <= i < j < |s.freed| ==> s.freed[i] != s.freed[j])
            && (forall h: nat :: h < s.next <==> h in s.freed)
  {
    RunKeeps(events);
    var s := Run(events).pub;
    P.DeinitFreesAll(s);
    P.OnceEach(P.Deinit(s).freed, [], s.next);
  }

  predicate AllSendsSucceed(events: seq<Event>) {
    forall i :: 0 <= i < |events| && events[i].Writeable? ==> true !in events[i].pubFails
  }

  ghost predicate Increasing(order: seq<nat>, bound: nat) {
    && (forall i, j :: 0 <= i < j < |order| ==> order[i] < order[j])
    && (forall i :: 0 <= i < |order| ==> order[i] < bound)
  }

  /** When every send succeeds, the wire order is a prefix of the order of acceptance (of the QoS 0 and
      QoS 1 messages, the only ones the loop sends), and the rest of it is what is still to be sent. */
  lemma {:induction false} RunInOrder(events: seq<Event>)
    requires AllSendsSucceed(events)
    ensures var s := Run(events).pub;
            s.order == s.wired + P.Sendable(s.list) && s.wired <= s.order && Increasing(s.order, s.next)
  {
    hide P.Sendable;
    if events == [] {
      P.SendableNil();
    } else {
      var init, e := events[..|events| - 1], events[|events| - 1];
      RunInOrder(init);
      var s := Run(init).pub;
      match e
      case Publish(qos) => P.PublishInOrder(s, qos);
      case Writeable(pubFails, _) => P.WriteableInOrder(s, pubFails);
      case Ack => P.AckInOrder(s);
      case _ =>
    }
  }

  /** This event is a WRITEABLE that gets to the publishes and overtakes there. */
  predicate OvertakesAt(s: State, e: Event) {
    && e.Writeable? && !s.sub.waiting && s.sub.pending == [] && !s.pub.waiting
    && O.Overtakes(s.pub.list, 0, e.pubFails, false)
  }

  ghost predicate SomeOvertakes(events: seq<Event>) {
    exists i :: 0 <= i < |events| && OvertakesAt(Run(events[..i]), events[i])
  }

  lemma SomeOvertakesLast(events: seq<Event>, e: Event)
    ensures SomeOvertakes(events + [e]) <==> SomeOvertakes(events) || OvertakesAt(Run(events), e)
  {
    hide Run, OvertakesAt;
    var all := events + [e];
    assert all[..|events|] == events && all[|events|] == e;
    assert forall i :: 0 <= i < |events| ==> all[..i] == events[..i] && all[i] == events[i];
    if SomeOvertakes(events) {
      var i :| 0 <= i < |events| && OvertakesAt(Run(events[..i]), events[i]);
      assert OvertakesAt(Run(all[..i]), all[i]);
    }
  }

  lemma StepCounts(s: State, e: Event)
    requires O.Counts(s.pub)
    ensures O.Counts(Step(s, e).pub)
  {
    hide O.Counts;
    match e
    case Publish(qos) => O.PublishCounts(s.pub, qos);
    case Writeable(pubFails, _) => O.WriteableCounts(s.pub, pubFails);
    case Ack => O.AckCounts(s.pub);
    case Established => EstablishedCounts(s.pub);
    case _ =>
  }

  lemma EstablishedCounts(s: P.Pub)
    requires O.Counts(s)
    ensures O.Counts(P.Established(s))
  {}

  /** One step from a state in order leaves the wire order a prefix exactly when it does not overtake. */
  lemma StepOrder(s: State, e: Event)
    requires P.Inv(s.pub) && P.InOrder(s.pub)
    ensures var t := Step(s, e).pub;
            (t.wired <= t.order <==> !OvertakesAt(s, e)) && (P.InOrder(t) <==> !OvertakesAt(s, e))
  {
    hide P.Inv, P.Sendable, O.Overtakes;
    match e
    case Publish(qos) => P.PublishInOrder(s.pub, qos);
    case Writeable(pubFails, _) => O.WriteableOrder(s.pub, pubFails);
    case Ack => P.AckInOrder(s.pub);
    case _ =>
  }

  /** Once the wire order is not a prefix of the order of acceptance, it never is again. */
  lemma DisorderStays(s: State, e: Event)
    requires O.Counts(s.pub) && !(s.pub.wired <= s.pub.order)
    ensures !(Step(s, e).pub.wired <= Step(s, e).pub.order)
  {
    hide Step;
    StepGrows(s, e);
    var t := Step(s, e).pub;
    O.CountsMembers(s.pub);
    if t.wired <= t.order {
      PrefixBack(s.pub.wired, s.pub.order, t.wired, t.order);
    }
  }

  lemma PrefixBack(w: seq<nat>, o: seq<nat>, w': seq<nat>, o': seq<nat>)
    requires w <= w' && o <= o' && |w| <= |o| && w' <= o'
    ensures w <= o
  {
    assert w == w'[..|w|] == o'[..|w|] == o[..|w|];
  }

  /** On every run the wire order is a prefix of the order of acceptance (of QoS 0 and QoS 1 messages)
      if and only if no WRITEABLE of the run overtakes; the rest of it is then what is still to be sent. */
  lemma {:induction false} RunOrderExactly(events: seq<Event>)
    ensures var s := Run(events).pub;
            && O.Counts(s)
            && (s.wired <= s.order <==> !SomeOvertakes(events))
            && (!SomeOvertakes(events) ==> s.order == s.wired + P.Sendable(s.list))
  {
    hide P.Sendable, P.Inv, SomeOvertakes, OvertakesAt, Step, O.Counts;
    if events == [] {
      StartInOrder();
    } else {
      var init, e := events[..|events| - 1], events[|events| - 1];
      assert events == init + [e];
      RunOrderExactly(init);
      RunKeeps(init);
      SomeOvertakesLast(init, e);
      StepCounts(Run(init), e);
      if SomeOvertakes(init) {
        DisorderStays(Run(init), e);
      } else {
        StepOrder(Run(init), e);
      }
    }
  }

  /** On every run, whatever fails, only accepted messages of QoS 0 and 1 are on the wire; the others
      are never sent. */
  lemma RunWires(events: seq<Event>)
    ensures var s := Run(events).pub;
            forall h: nat :: h in s.order <==> h in s.wired || h in P.Sendable(s.list)
  {
    RunOrderExactly(events);
    O.CountsMembers(Run(events).pub);
  }

  lemma StartInOrder()
    ensures P.InOrder(INIT.pub) && O.Counts(INIT.pub) && !SomeOvertakes([])
  {
    P.SendableNil();
  }

  /** With a failing QoS 0 send the order can change: the second of two messages goes out first. */
  lemma FailedSendReorders()
    ensures var events := [Publish(0), Publish(0)] + [Writeable([true], false)] + [Writeable([], false)];
            Run(events).pub.wired == [1, 0] && Run(events).pub.order == [0, 1]
  {
    hide Run;
    var e, w0, w1 := Publish(0), Writeable([true], false), Writeable([], false);
    RunOne(e);
    RunLast([e], e);
    assert [e] + [e] == [e, e];
    RunLast([e, e], w0);
    RunLast([e, e] + [w0], w1);
    hide Step;
    var a, b := P.Entry(0, 0, false), P.Entry(1, 0, false);
    var s := Run([e, e]);
    assert s == State(P.EMPTY.(list := [a, b], next := 2, order := [0, 1]), S.EMPTY) by {
      PublishTwice(0, 0);
    }
    var t := Step(s, w0);
    assert t == s.(pub := s.pub.(list := [a], wired := [1], freed := [1])) by {
      FirstFails(s, 0);
    }
    assert Step(t, w1).pub == t.pub.(list := [], wired := [1, 0], freed := [1, 0]) by {
      LastSucceeds(t);
    }
  }

  /** So it can with a failing QoS 1 send: the loop goes on to the next message. */
  lemma FailedQos1Reorders()
    ensures var events := [Publish(1), Publish(0)] + [Writeable([true], false)];
            Run(events).pub.wired == [1] && Run(events).pub.order == [0, 1]
  {
    hide Run;
    var e0, e1, w := Publish(1), Publish(0), Writeable([true], false);
    RunOne(e0);
    RunLast([e0], e1);
    assert [e0] + [e1] == [e0, e1];
    RunLast([e0, e1], w);
    PublishTwice(1, 0);
    FirstFails(Run([e0, e1]), 1);
  }

  lemma RunOne(e: Event)
    ensures Run([e]) == Step(INIT, e)
  {
    RunLast([], e);
    assert [] + [e] == [e];
  }

  lemma PublishTwice(qos0: int, qos1: int)
    requires qos0 in {P.QOS0, P.QOS1} && qos1 in {P.QOS0, P.QOS1}
    ensures Step(Step(INIT, Publish(qos0)), Publish(qos1))
         == State(P.EMPTY.(list := [P.Entry(0, qos0, false), P.Entry(1, qos1, false)], next := 2, order := [0, 1]),
                  S.EMPTY)
  {}

  lemma FirstFails(s: State, qos: int)
    requires qos in {P.QOS0, P.QOS1}
    requires s.pub.list == [P.Entry(0, qos, false), P.Entry(1, 0, false)] && !s.pub.waiting
    requires s.pub.wired == s.pub.freed == [] && s.pub.inFlight.None? && s.sub == S.EMPTY
    ensures Step(s, Writeable([true], false))
         == s.(pub := s.pub.(list := [P.Entry(0, qos, false)], wired := [1], freed := [1]))
  {
    hide P.Keep, P.Drop;
    var a, b := P.Entry(0, qos, false), P.Entry(1, 0, true);
    assert P.SendFrom(s.pub.list, 2, [true]) == P.Sending(s.pub.list, [], None);
    assert s.pub.list[1 := b] == [a, b];
    assert P.SendFrom([a, b], 2, [true]) == P.Sending([a, b], [], None);
    assert P.SendFrom(s.pub.list, 1, [true]) == P.Sending([a, b], [1], None);
    P.KeepLast([a], b);
    P.KeepNil();
    P.KeepLast([], a);
    assert [a] + [b] == [a, b] && [] + [a] == [a];
  }

  lemma LastSucceeds(s: State)
    requires s.pub.list == [P.Entry(0, 0, false)] && !s.pub.waiting
    requires s.pub.wired == s.pub.freed == [1] && s.pub.inFlight.None? && s.sub == S.EMPTY
    ensures Step(s, Writeable([], false)).pub == s.pub.(list := [], wired := [1, 0], freed := [1, 0])
  {
    hide P.Keep, P.Drop;
    var a := P.Entry(0, 0, true);
    assert s.pub.list[0 := a] == [a];
    assert P.SendFrom([a], 1, []) == P.Sending([a], [], None);
    P.KeepNil();
    P.KeepLast([], a);
    assert [] + [a] == [a];
  }

  /** After a reconnect while waiting, an ACK can take out another message than the one in flight:
      message 1 is in flight, message 0 was lost with the old connection, and the ACK frees 0. */
  lemma OrphanIsAcked()
    ensures var w := Writeable([], false);
            var events := [Publish(1), Publish(1)] + [w] + [Established] + [w];
            && Run(events).pub.inFlight == Some(1) && Run(events).pub.wired == [0, 1]
            && Run(events + [Ack]).pub.freed == [0]
  {
    hide Run, Step;
    var p, w := Publish(1), Writeable([], false);
    RunOne(p);
    RunLast([p], p);
    assert [p] + [p] == [p, p];
    RunLast([p, p], w);
    RunLast([p, p] + [w], Established);
    RunLast([p, p] + [w] + [Established], w);
    RunLast([p, p] + [w] + [Established] + [w], Ack);
    PublishTwice(1, 1);
    var s := Run([p, p]);
    LostWait(s);
  }

  lemma LostWait(s: State)
    requires s.pub == P.EMPTY.(list := [P.Entry(0, 1, false), P.Entry(1, 1, false)], next := 2, order := [0, 1])
    requires s.sub == S.EMPTY
    ensures var w := Writeable([], false);
            var t := Step(Step(Step(s, w), Established), w);
            t.pub.inFlight == Some(1) && t.pub.wired == [0, 1] && Step(t, Ack).pub.freed == [0]
  {
    var w := Writeable([], false);
    SendNext(s, 0);
    var t := Step(s, w);
    var u := Step(t, Established);
    assert u.pub == t.pub.(waiting := false, inFlight := None, orphans := 1) && u.sub == S.EMPTY;
    SendNext(u, 1);
    hide P.Writeable;
    assert P.AckIndex(Step(u, w).pub.list, 0) == 0;
  }

  /** The loop stops at the first of the QoS 1 messages that is not sent yet. */
  lemma SendNext(s: State, i: nat)
    requires i < 2 && s.pub.list == [P.Entry(0, 1, i == 1), P.Entry(1, 1, false)]
    requires !s.pub.waiting && s.sub == S.EMPTY
    ensures Step(s, Writeable([], false)).pub
         == s.pub.(list := [P.Entry(0, 1, true), P.Entry(1, 1, i == 1)], wired := s.pub.wired + [i],
                   waiting := true, inFlight := Some(i))
  {
    hide P.Keep, P.Drop;
    var r := [P.Entry(0, 1, true), P.Entry(1, 1, i == 1)];
    assert s.pub.list[i := P.Entry(i, 1, true)] == r;
    assert P.SendFrom(s.pub.list, i, []) == P.Sending(r, [i], Some(i));
    assert P.SendFrom(s.pub.list, 0, []) == P.Sending(r, [i], Some(i));
    P.KeepAll(r);
  }

  /** What a run keeps of an earlier state: the topic map and the logs only grow at the end, and a
      wait that was lost stays lost. */
  lemma {:induction false} RunGrows(events: seq<Event>, more: seq<Event>)
    ensures var s := Run(events); var t := Run(events + more);
            && s.sub.maps <= t.sub.maps && s.pub.wired <= t.pub.wired && s.pub.freed <= t.pub.freed
            && s.pub.order <= t.pub.order && s.pub.next <= t.pub.next && s.pub.orphans <= t.pub.orphans
    decreases |more|
  {
    if more == [] {
      assert events + more == events;
    } else {
      var init, e := more[..|more| - 1], more[|more| - 1];
      RunGrows(events, init);
      assert events + more == (events + init) + [e];
      RunLast(events + init, e);
      StepGrows(Run(events + init), e);
    }
  }

  ghost predicate PubGrows(s: P.Pub, t: P.Pub) {
    && s.wired <= t.wired && s.freed <= t.freed && s.order <= t.order
    && s.next <= t.next && s.orphans <= t.orphans
  }

  lemma PubStepGrows(s: P.Pub, qos: int, fails: seq<bool>)
    ensures PubGrows(s, P.Publish(s, qos)) && PubGrows(s, P.Writeable(s, fails))
    ensures PubGrows(s, P.Ack(s)) && PubGrows(s, P.Established(s))
  {
    hide P.SendFrom, P.Keep, P.Drop;
  }

  lemma SubStepGrows(s: S.Sub, fails: bool)
    ensures s.maps <= S.Writeable(s, fails).maps
  {
    hide S.AddAll, S.FirstSeen;
    S.AddAllIsFirstSeen(s.maps, s.pending[..S.BatchSize(s)]);
  }

  lemma StepGrows(s: State, e: Event)
    ensures s.sub.maps <= Step(s, e).sub.maps && PubGrows(s.pub, Step(s, e).pub)
  {
    hide P.Publish, P.Writeable, P.Ack, P.Established, S.Writeable;
    match e
    case Publish(qos) => PubStepGrows(s.pub, qos, []);
    case Writeable(pubFails, subFails) =>
      PubStepGrows(s.pub, 0, pubFails);
      SubStepGrows(s.sub, subFails);
    case Ack => PubStepGrows(s.pub, 0, []);
    case Established => PubStepGrows(s.pub, 0, []);
    case _ =>
  }

  // ---------- a frozen queue ----------

  /** A frozen queue stays as it is whatever follows. */
  lemma {:induction false} FrozenStays(events: seq<Event>, more: seq<Event>)
    requires P.Frozen(Run(events).pub)
    ensures Run(events + more).pub == Run(events).pub
    decreases |more|
  {
    if more == [] {
      assert events + more == events;
    } else {
      var init, e := more[..|more| - 1], more[|more| - 1];
      FrozenStays(events, init);
      assert events + more == (events + init) + [e];
      RunLast(events + init, e);
    }
  }

  function Publishes(n: nat, qos: int): seq<Event> {
    seq(n, i => Publish(qos))
  }

  lemma OtherQosPublish(s: P.Pub, qos: int)
    requires qos !in {P.QOS0, P.QOS1} && P.Sendable(s.list) == [] && !s.waiting && |s.list| <= 11
    ensures var t := P.Publish(s, qos);
            && |t.list| == (if |s.list| < 11 then |s.list| + 1 else 11)
            && P.Sendable(t.list) == [] && !t.waiting && t.orphans == s.orphans
  {
    hide P.Sendable;
    P.SendableConcat(s.list, [P.Entry(s.next, qos, false)]);
    P.SendableOne(P.Entry(s.next, qos, false));
  }

  /** Eleven messages that are neither QoS 0 nor QoS 1 freeze the queue without any reconnect. */
  lemma {:induction false} OtherQosFills(n: nat, qos: int)
    requires qos !in {P.QOS0, P.QOS1}
    ensures var s := Run(Publishes(n, qos)).pub;
            && |s.list| == (if n <= 11 then n else 11) && P.Sendable(s.list) == []
            && !s.waiting && s.orphans == 0
            && (n >= 11 ==> P.Frozen(s))
  {
    hide P.Sendable, P.Frozen, P.Publish, P.Inv;
    if n == 0 {
      P.SendableNil();
    } else {
      OtherQosFills(n - 1, qos);
      assert Publishes(n, qos) == Publishes(n - 1, qos) + [Publish(qos)];
      RunLast(Publishes(n - 1, qos), Publish(qos));
      OtherQosPublish(Run(Publishes(n - 1, qos)).pub, qos);
    }
    RunKeeps(Publishes(n, qos));
    P.FrozenExactly(Run(Publishes(n, qos)).pub);
  }

  /** Subscriptions on every run: topics are distinct, each SUBSCRIBE carries 1 to 7 of them, at most
      one is outstanding, and every subscribed topic was carried since the last connect or is queued. */
  lemma RunSubscribes(events: seq<Event>)
    ensures var s := Run(events).sub;
            && (forall i, j :: 0 <= i < j < |s.maps| ==> s.maps[i].topic != s.maps[j].topic)
            && (forall i :: 0 <= i < |s.carried| ==> 1 <= |s.carried[i]| <= 7)
            && s.outstanding <= 1 && (s.outstanding == 1 <==> s.waiting)
            && (forall t :: S.Has(s.maps, t) ==> S.Has(s.pending, t) || S.Has(S.Flat(s.carried), t))
  {
    RunKeeps(events);
  }
}
