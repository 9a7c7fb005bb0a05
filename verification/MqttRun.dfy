/** Runs of the MQTT client seen from outside: which subscriptions a run holds, and that on a working
    connection every subscription and every message goes out. */
module MqttRun {
  import opened Mqtt
  import P = MqttPub
  import S = MqttSub
  import O = MqttOrder
  import D = MqttDrain

  // ---------- runs from a state ----------

  function Steps(s: State, events: seq<Event>): State
    decreases |events|
  {
    if events == [] then s else Steps(Step(s, events[0]), events[1..])
  }

  lemma {:induction false} RunSteps(events: seq<Event>, more: seq<Event>)
    ensures Run(events + more) == Steps(Run(events), more)
    decreases |more|
  {
    hide Run, Step;
    if more == [] {
      assert events + more == events;
    } else {
      RunLast(events, more[0]);
      RunSteps(events + [more[0]], more[1..]);
      assert events + more == events + [more[0]] + more[1..];
    }
  }

  lemma {:induction false} StepsConcat(s: State, a: seq<Event>, b: seq<Event>)
    ensures Steps(s, a + b) == Steps(Steps(s, a), b)
    decreases |a|
  {
    hide Step;
    if a == [] {
      assert a + b == b;
    } else {
      assert (a + b)[1..] == a[1..] + b;
      StepsConcat(Step(s, a[0]), a[1..], b);
    }
  }

  // ---------- subscriptions of a run ----------

  lemma {:induction false} AddAllFrom(maps: seq<S.TopicMap>, news: seq<S.TopicMap>, m: S.TopicMap)
    requires m in S.AddAll(maps, news)
    ensures m in maps || m in news
    decreases |news|
  {
    hide S.Has;
    if news != [] {
      AddAllFrom(if S.Has(maps, news[0].topic) then maps else maps + [news[0]], news[1..], m);
    }
  }

  /** A step adds no topic but the one subscribed, and loses none. */
  lemma StepTopics(s: State, e: Event)
    ensures forall m :: m in Step(s, e).sub.maps || m in Step(s, e).sub.pending ==>
              m in s.sub.maps || m in s.sub.pending || e == Subscribe(m)
    ensures forall t :: S.Has(s.sub.maps, t) || S.Has(s.sub.pending, t) ==>
              S.Has(Step(s, e).sub.maps, t) || S.Has(Step(s, e).sub.pending, t)
    ensures e.Subscribe? ==>
              S.Has(Step(s, e).sub.maps, e.topicMap.topic) || S.Has(Step(s, e).sub.pending, e.topicMap.topic)
  {
    hide S.Has, S.Writeable, P.Writeable;
    match e
    case Subscribe(m) => SubscribeTopics(s.sub, m);
    case Writeable(_, subFails) => WriteableTopics(s.sub, subFails);
    case Closed(_, connects) => ReconnectTopics(s.sub, connects);
    case Reconnect(connects) => ReconnectTopics(s.sub, connects);
    case _ =>
  }

  lemma SubscribeTopics(s: S.Sub, m: S.TopicMap)
    ensures var r := S.Subscribe(s, m);
            && r.maps == s.maps && (r.pending == s.pending || r.pending == s.pending + [m])
            && (forall t :: S.Has(s.pending, t) ==> S.Has(r.pending, t))
            && (S.Has(r.maps, m.topic) || S.Has(r.pending, m.topic))
  {
    hide S.Has;
    forall t | S.Has(s.pending, t) ensures S.Has(s.pending + [m], t) {
      S.HasConcat(s.pending, [m], t);
    }
    S.HasConcat(s.pending, [m], m.topic);
    HasOne(m);
  }

  lemma HasOne(m: S.TopicMap)
    ensures S.Has([m], m.topic)
  {
    assert [m][0] == m;
  }

  lemma WriteableTopics(s: S.Sub, fails: bool)
    ensures var r := S.Writeable(s, fails);
            && (forall m :: m in r.maps || m in r.pending ==> m in s.maps || m in s.pending)
            && (forall t :: S.Has(s.maps, t) || S.Has(s.pending, t) ==> S.Has(r.maps, t) || S.Has(r.pending, t))
  {
    hide S.Has, S.AddAll;
    var r, n := S.Writeable(s, fails), S.BatchSize(s);
    var batch := s.pending[..n];
    assert s.pending == batch + s.pending[n..];
    forall t | S.Has(s.maps, t) || S.Has(s.pending, t) ensures S.Has(r.maps, t) || S.Has(r.pending, t) {
      S.HasConcat(batch, s.pending[n..], t);
      S.AddAllHas(s.maps, batch, t);
    }
    forall m | m in r.maps ensures m in s.maps || m in s.pending {
      if m in S.AddAll(s.maps, batch) {
        AddAllFrom(s.maps, batch, m);
      }
    }
  }

  lemma ReconnectTopics(s: S.Sub, connects: bool)
    ensures var r := S.Reconnect(s, connects);
            && (forall m :: m in r.maps || m in r.pending ==> m in s.maps || m in s.pending)
            && r.maps == s.maps && forall t :: S.Has(s.pending, t) ==> S.Has(r.pending, t)
  {
    hide S.Has;
    forall t | S.Has(s.pending, t) ensures S.Has(s.pending + s.maps, t) {
      S.HasConcat(s.pending, s.maps, t);
    }
  }

  /** On every run: each topic a call subscribed is in the map or queued; and whatever is in the map or
      queued was subscribed by a call, with this QoS and handler. */
  lemma {:induction false} RunTopics(events: seq<Event>)
    ensures var s := Run(events).sub;
            && (forall i :: 0 <= i < |events| && events[i].Subscribe? ==>
                  S.Has(s.maps, events[i].topicMap.topic) || S.Has(s.pending, events[i].topicMap.topic))
            && (forall m :: m in s.maps || m in s.pending ==> Subscribe(m) in events)
  {
    hide S.Has, Step;
    if events != [] {
      var init, e := events[..|events| - 1], events[|events| - 1];
      RunTopics(init);
      StepTopics(Run(init), e);
      assert forall i :: 0 <= i < |init| ==> events[i] == init[i];
      assert forall x :: x in events <==> x in init || x == e;
    }
  }

  // ---------- a working connection ----------

  /** k times a WRITEABLE and the SUBACK for what it sent. */
  function SubRounds(k: nat): seq<Event> {
    if k == 0 then [] else [Writeable([], false), Subscribed] + SubRounds(k - 1)
  }

  /** k times a WRITEABLE and an ACK. */
  function PubRounds(k: nat): seq<Event> {
    if k == 0 then [] else [Writeable([], false), Ack] + PubRounds(k - 1)
  }

  lemma TwoSteps(s: State, a: Event, b: Event, more: seq<Event>)
    ensures Steps(s, [a, b] + more) == Steps(Step(Step(s, a), b), more)
  {
    hide Step;
    assert ([a, b] + more)[1..] == [b] + more && ([b] + more)[1..] == more;
  }

  lemma {:induction false} SubRoundsAre(s: State, k: nat)
    ensures Steps(s, SubRounds(k)).sub == S.Rounds(s.sub, k)
    decreases k
  {
    hide S.Writeable, P.Writeable, Steps;
    if k == 0 {
      NoSteps(s);
    } else {
      var t := Step(Step(s, Writeable([], false)), Subscribed);
      TwoSteps(s, Writeable([], false), Subscribed, SubRounds(k - 1));
      SubRoundIs(s);
      SubRoundsAre(t, k - 1);
    }
  }

  lemma NoSteps(s: State)
    ensures Steps(s, []) == s
  {}

  lemma SubRoundIs(s: State)
    ensures var t := Step(Step(s, Writeable([], false)), Subscribed);
            t.sub == S.Round(s.sub) && (s.sub.pending != [] ==> t.pub == s.pub)
  {
    hide S.AddAll, P.Writeable;
  }

  /** While topics are queued the publishes wait. */
  lemma {:induction false} PublishesWait(s: State, k: nat)
    requires !s.sub.waiting && k <= S.RoundsNeeded(|s.sub.pending|)
    ensures Steps(s, SubRounds(k)).pub == s.pub
    decreases k
  {
    hide S.Writeable, P.Writeable, Steps, S.AddAll;
    if k == 0 {
      NoSteps(s);
    } else {
      var t := Step(Step(s, Writeable([], false)), Subscribed);
      TwoSteps(s, Writeable([], false), Subscribed, SubRounds(k - 1));
      SubRoundIs(s);
      NextRound(s.sub);
      PublishesWait(t, k - 1);
    }
  }

  lemma NextRound(s: S.Sub)
    requires !s.waiting
    ensures var r := S.Round(s);
            !r.waiting && |r.pending| == if |s.pending| > 7 then |s.pending| - 7 else 0
  {
    hide S.AddAll;
  }

  lemma {:induction false} PubRoundsAre(s: State, k: nat)
    requires !s.sub.waiting && s.sub.pending == []
    ensures Steps(s, PubRounds(k)) == s.(pub := D.Rounds(s.pub, k))
    decreases k
  {
    hide P.Writeable, P.Ack, Steps;
    if k == 0 {
      NoSteps(s);
    } else {
      var t := Step(Step(s, Writeable([], false)), Ack);
      TwoSteps(s, Writeable([], false), Ack, PubRounds(k - 1));
      assert t == s.(pub := D.Round(s.pub));
      PubRoundsAre(t, k - 1);
    }
  }

  /** ceil(n / 7), the SUBSCRIBE packets n topics need. */
  function Packets(n: nat): nat {
    (n + 6) / 7
  }

  /** The events of a connection that works: it is established, every queued topic is subscribed, and
      messages are sent and acknowledged m times. */
  function Working(topics: nat, m: nat): seq<Event> {
    [Established] + SubRounds(Packets(topics)) + PubRounds(m)
  }

  lemma WorkingSteps(s: State, topics: nat, m: nat)
    ensures var e := Step(s, Established); var d := Steps(e, SubRounds(Packets(topics)));
            Steps(s, Working(topics, m)) == Steps(d, PubRounds(m))
  {
    hide Step;
    StepsConcat(s, [Established] + SubRounds(Packets(topics)), PubRounds(m));
    StepsConcat(s, [Established], SubRounds(Packets(topics)));
    OneStep(s, Established);
  }

  lemma OneStep(s: State, e: Event)
    ensures Steps(s, [e]) == Step(s, e)
  {
    hide Step;
    assert [e][1..] == [];
  }

  /** After any run, a working connection puts every queued topic into the map, in order, and carries it
      in a SUBSCRIBE packet. */
  lemma WorkingSubscribes(events: seq<Event>, m: nat)
    ensures var s := Run(events).sub; var t := Run(events + Working(|s.pending|, m)).sub;
            && t.pending == [] && !t.waiting
            && t.maps == s.maps + S.FirstSeen(s.maps, s.pending)
            && S.Flat(t.carried) == S.Flat(s.carried) + s.pending
  {
    hide Run, Step, S.AddAll, S.Flat, S.FirstSeen, S.Rounds;
    RunKeeps(events);
    var s := Run(events);
    RunSteps(events, Working(|s.sub.pending|, m));
    WorkingSteps(s, |s.sub.pending|, m);
    var e := Step(s, Established);
    EstablishedIs(s);
    S.SubscribedKeeps(s.sub);
    var d := Steps(e, SubRounds(Packets(|s.sub.pending|)));
    SubRoundsAre(e, Packets(|s.sub.pending|));
    S.RoundsLaw(e.sub, Packets(|s.sub.pending|));
    S.Drain(e.sub, Packets(|s.sub.pending|));
    PubRoundsAre(d, m);
  }

  lemma EstablishedIs(s: State)
    ensures var e := Step(s, Established);
            && e.sub == s.sub.(waiting := false, outstanding := 0)
            && !e.pub.waiting && e.pub.list == s.pub.list && e.pub.order == s.pub.order && e.pub.wired == s.pub.wired
  {}

  /** So after any run every topic that a call subscribed gets into the map. */
  lemma EverySubscriptionArrives(events: seq<Event>, i: nat, m: nat)
    requires i < |events| && events[i].Subscribe?
    ensures S.Has(Run(events + Working(|Run(events).sub.pending|, m)).sub.maps, events[i].topicMap.topic)
  {
    hide Run, S.Has, S.AddAll, S.FirstSeen, S.Flat;
    var s, t := Run(events).sub, events[i].topicMap.topic;
    RunTopics(events);
    WorkingSubscribes(events, m);
    S.AddAllIsFirstSeen(s.maps, s.pending);
    S.AddAllHas(s.maps, s.pending, t);
  }

  /** A topic that was not subscribed before gets into the map with the QoS and handler of the call, and
      a SUBSCRIBE packet carries it with them. */
  lemma NewSubscriptionArrives(events: seq<Event>, topicMap: S.TopicMap, m: nat)
    requires forall i :: 0 <= i < |events| && events[i].Subscribe? ==> events[i].topicMap.topic != topicMap.topic
    ensures var all := events + [Subscribe(topicMap)];
            var t := Run(all + Working(|Run(all).sub.pending|, m)).sub;
            topicMap in t.maps && topicMap in S.Flat(t.carried)
  {
    hide Run, S.Has, S.FirstSeen, S.Flat;
    var s, all := Run(events).sub, events + [Subscribe(topicMap)];
    RunTopics(events);
    NotYet(events, s.maps, topicMap.topic);
    NotYet(events, s.pending, topicMap.topic);
    RunLast(events, Subscribe(topicMap));
    var r := Run(all).sub;
    assert r.maps == s.maps && r.pending == s.pending + [topicMap];
    WorkingSubscribes(all, m);
    LastIsFirstSeen(s.maps, s.pending, topicMap);
    assert topicMap in r.pending;
  }

  /** A call changes nothing exactly when its topic is in the map: then neither the QoS nor the handler of
      the call is taken. */
  lemma SubscribeIgnoredExactly(events: seq<Event>, topicMap: S.TopicMap)
    ensures Run(events + [Subscribe(topicMap)]) == Run(events) <==> S.Has(Run(events).sub.maps, topicMap.topic)
  {
    RunLast(events, Subscribe(topicMap));
    var p := Run(events).sub.pending;
    assert |p + [topicMap]| == |p| + 1;
  }

  lemma NotYet(events: seq<Event>, maps: seq<S.TopicMap>, topic: string)
    requires forall i :: 0 <= i < |events| && events[i].Subscribe? ==> events[i].topicMap.topic != topic
    requires forall m :: m in maps ==> Subscribe(m) in events
    ensures !S.Has(maps, topic)
  {
    forall i | 0 <= i < |maps| ensures maps[i].topic != topic {
      assert Subscribe(maps[i]) in events;
    }
  }

  lemma LastIsFirstSeen(maps: seq<S.TopicMap>, pending: seq<S.TopicMap>, m: S.TopicMap)
    requires !S.Has(maps, m.topic) && !S.Has(pending, m.topic)
    ensures m in S.FirstSeen(maps, pending + [m])
  {
    hide S.Has;
    assert (pending + [m])[..|pending + [m]| - 1] == pending;
  }

  /** After any run, a working connection with more rounds than there are QoS 1 messages left sends every
      accepted QoS 0 and QoS 1 message; in the order of acceptance unless an earlier WRITEABLE overtook. */
  lemma WorkingPublishes(events: seq<Event>, m: nat)
    requires m > D.Qos1Left(Run(events).pub.list)
    ensures var s := Run(events); var t := Run(events + Working(|s.sub.pending|, m)).pub;
            && t.order == s.pub.order && P.Sendable(t.list) == [] && !t.waiting
            && (forall h: nat :: h in t.order <==> h in t.wired)
            && (!SomeOvertakes(events) ==> t.wired == t.order)
  {
    hide Run, Step, P.Sendable, D.Qos1Left, D.Rounds, S.AddAll, SomeOvertakes;
    var s := Run(events);
    var all := events + Working(|s.sub.pending|, m);
    RunSteps(events, Working(|s.sub.pending|, m));
    WorkingSteps(s, |s.sub.pending|, m);
    var e := Step(s, Established);
    EstablishedIs(s);
    var k := Packets(|s.sub.pending|);
    var d := Steps(e, SubRounds(k));
    PublishesWait(e, k);
    SubRoundsAre(e, k);
    S.RoundsLaw(e.sub, k);
    RunKeeps(events);
    S.SubscribedKeeps(s.sub);
    S.Drain(e.sub, k);
    PubRoundsAre(d, m);
    RoundsSend(e.pub, m);
    RunWires(all);
    RunOrderExactly(events);
    if !SomeOvertakes(events) {
      D.Drain(e.pub, m);
    }
  }

  /** Without the assumption that the order was kept so far. */
  lemma {:induction false} RoundsSend(s: P.Pub, k: nat)
    requires !s.waiting && k > D.Qos1Left(s.list)
    ensures P.Sendable(D.Rounds(s, k).list) == [] && D.Rounds(s, k).order == s.order && !D.Rounds(s, k).waiting
    decreases k
  {
    hide P.Sendable, D.Qos1Left, D.Round;
    D.RoundLeft(s);
    if k == 1 {
      assert D.Rounds(D.Round(s), 0) == D.Round(s);
    } else {
      RoundsSend(D.Round(s), k - 1);
    }
  }

  // ---------- reconnecting ----------

  /** When the connection is closed, auto-reconnect is set and the connect succeeds, a working connection
      subscribes again to every topic of the map, after those still queued; the map is then what it would
      have been without the disconnection. */
  lemma ClosedResubscribes(events: seq<Event>, m: nat)
    ensures var s := Run(events).sub;
            var t := Run(events + [Closed(true, true)] + Working(|s.pending| + |s.maps|, m)).sub;
            && t.pending == [] && S.Flat(t.carried) == s.pending + s.maps
            && t.maps == s.maps + S.FirstSeen(s.maps, s.pending)
  {
    hide Run, S.AddAll, S.FirstSeen, S.Flat;
    var s, closed := Run(events).sub, events + [Closed(true, true)];
    RunLast(events, Closed(true, true));
    WorkingSubscribes(closed, m);
    KnownAgain(s.maps, s.pending);
    NothingCarried();
  }

  lemma NothingCarried()
    ensures S.Flat([]) == []
  {}

  /** Topics of the map that are queued again behind others add nothing. */
  lemma KnownAgain(maps: seq<S.TopicMap>, pending: seq<S.TopicMap>)
    ensures S.FirstSeen(maps, pending + maps) == S.FirstSeen(maps, pending)
  {
    hide S.AddAll, S.FirstSeen, S.Has;
    S.AddAllConcat(maps, pending, maps);
    var all := S.AddAll(maps, pending);
    forall i | 0 <= i < |maps| ensures S.Has(all, maps[i].topic) {
      HasAt(maps, i);
      S.AddAllHas(maps, pending, maps[i].topic);
    }
    S.AddAllKnown(all, maps);
    S.AddAllIsFirstSeen(maps, pending);
    S.AddAllIsFirstSeen(maps, pending + maps);
    SameRest(maps, S.FirstSeen(maps, pending + maps), S.FirstSeen(maps, pending));
  }

  lemma HasAt(maps: seq<S.TopicMap>, i: nat)
    requires i < |maps|
    ensures S.Has(maps, maps[i].topic)
  {}

  lemma SameRest<T>(a: seq<T>, x: seq<T>, y: seq<T>)
    requires a + x == a + y
    ensures x == y
  {
    assert (a + x)[|a|..] == x && (a + y)[|a|..] == y;
  }

  /** Without auto-reconnect, or when the connect fails, a closed connection leaves the client as it is. */
  lemma ClosedKeeps(events: seq<Event>, auto: bool, connects: bool)
    ensures Run(events + [Closed(auto, connects)]) == Run(events) <==>
            !auto || !connects || (Run(events).sub.maps == [] && Run(events).sub.carried == [])
  {
    RunLast(events, Closed(auto, connects));
    var s := Run(events).sub;
    assert |s.pending + s.maps| == |s.pending| + |s.maps| && (s.maps == [] ==> s.pending + s.maps == s.pending);
  }

  /** An explicit reconnect does what a closed connection with auto-reconnect does. */
  lemma ReconnectIsClosed(events: seq<Event>, connects: bool)
    ensures Run(events + [Reconnect(connects)]) == Run(events + [Closed(true, connects)])
  {
    RunLast(events, Reconnect(connects));
    RunLast(events, Closed(true, connects));
  }

  // ---------- acceptance ----------

  /** The calls of the run that found at most 10 messages pending. */
  function Accepted(events: seq<Event>): nat {
    if events == [] then 0
    else
      var init := events[..|events| - 1];
      Accepted(init) + if events[|events| - 1].Publish? && |Run(init).pub.list| <= 10 then 1 else 0
  }

  lemma {:induction false} RunAccepts(events: seq<Event>)
    ensures Run(events).pub.next == Accepted(events)
  {
    if events != [] {
      RunAccepts(events[..|events| - 1]);
    }
  }
}
