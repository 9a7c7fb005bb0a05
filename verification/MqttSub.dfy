/** The subscription side of src/iot/iot_mqtt.c as a function of its events: the list of topics
    still to be subscribed, and the map of subscribed topics. */
module MqttSub {

  /** The handler stands for the callbacks and the user data. */
  datatype TopicMap = TopicMap(topic: string, qos: int, handler: nat)

  /** outstanding: SUBSCRIBE packets of this connection without their SUBACK; carried: the SUBSCRIBE
      packets sent since the last successful connect. */
  datatype Sub = Sub(pending: seq<TopicMap>, maps: seq<TopicMap>, waiting: bool, outstanding: nat,
                     carried: seq<seq<TopicMap>>)

  const EMPTY := Sub([], [], false, 0, [])
  const BATCH := 7

  predicate Has(maps: seq<TopicMap>, topic: string) {
    exists i :: 0 <= i < |maps| && maps[i].topic == topic
  }

  /** iot_mqtt_subscribe: a topic that is already subscribed is left alone. */
  function Subscribe(s: Sub, m: TopicMap): Sub {
    if Has(s.maps, m.topic) then s else s.(pending := s.pending + [m])
  }

  /** The loop that moves topics into the map, skipping those already there. */
  function AddAll(maps: seq<TopicMap>, news: seq<TopicMap>): seq<TopicMap>
    decreases |news|
  {
    if news == [] then maps
    else AddAll(if Has(maps, news[0].topic) then maps else maps + [news[0]], news[1..])
  }

  function BatchSize(s: Sub): nat {
    if |s.pending| > BATCH then BATCH else |s.pending|
  }

  function Writeable(s: Sub, fails: bool): Sub {
    if s.waiting || s.pending == [] || fails then s
    else
      var n := BatchSize(s);
      s.(pending := s.pending[n..], maps := AddAll(s.maps, s.pending[..n]), waiting := true,
         outstanding := s.outstanding + 1, carried := s.carried + [s.pending[..n]])
  }

  function Subscribed(s: Sub): Sub {
    s.(waiting := false, outstanding := if s.outstanding > 0 then s.outstanding - 1 else 0)
  }

  function Established(s: Sub): Sub {
    s.(waiting := false, outstanding := 0)
  }

  /** iot_mqtt_reconnect: a failed connect queues nothing. */
  function Reconnect(s: Sub, connects: bool): Sub {
    if connects then s.(pending := s.pending + s.maps, carried := []) else s
  }

  // ---------- the map as a set of first occurrences ----------

  ghost predicate Distinct(maps: seq<TopicMap>) {
    forall i, j :: 0 <= i < j < |maps| ==> maps[i].topic != maps[j].topic
  }

  /** The entries of news whose topic is neither in maps nor earlier in news, in order. */
  function FirstSeen(maps: seq<TopicMap>, news: seq<TopicMap>): seq<TopicMap> {
    if news == [] then []
    else
      var init, m := news[..|news| - 1], news[|news| - 1];
      FirstSeen(maps, init) + if Has(maps, m.topic) || Has(init, m.topic) then [] else [m]
  }

  lemma {:induction false} AddAllConcat(maps: seq<TopicMap>, a: seq<TopicMap>, b: seq<TopicMap>)
    ensures AddAll(maps, a + b) == AddAll(AddAll(maps, a), b)
    decreases |a|
  {
    if a == [] {
      assert a + b == b;
    } else {
      assert (a + b)[1..] == a[1..] + b;
      AddAllConcat(if Has(maps, a[0].topic) then maps else maps + [a[0]], a[1..], b);
    }
  }

  lemma HasConcat(a: seq<TopicMap>, b: seq<TopicMap>, topic: string)
    ensures Has(a + b, topic) <==> Has(a, topic) || Has(b, topic)
  {
    if Has(a, topic) {
      var i :| 0 <= i < |a| && a[i].topic == topic;
      assert (a + b)[i].topic == topic;
    } else if Has(b, topic) {
      var i :| 0 <= i < |b| && b[i].topic == topic;
      assert (a + b)[|a| + i].topic == topic;
    }
  }

  lemma AddAllLast(maps: seq<TopicMap>, news: seq<TopicMap>, m: TopicMap)
    ensures var r := AddAll(maps, news); AddAll(maps, news + [m]) == if Has(r, m.topic) then r else r + [m]
  {
    AddAllConcat(maps, news, [m]);
    assert [m][1..] == [];
  }

  /** The map keeps what it had, and a topic is in it exactly when it was there or is added. */
  lemma {:induction false} AddAllHas(maps: seq<TopicMap>, news: seq<TopicMap>, topic: string)
    ensures Has(AddAll(maps, news), topic) <==> Has(maps, topic) || Has(news, topic)
    decreases |news|
  {
    if news != [] {
      var init, m := news[..|news| - 1], news[|news| - 1];
      assert news == init + [m];
      AddAllLast(maps, init, m);
      AddAllHas(maps, init, topic);
      HasConcat(init, [m], topic);
      HasConcat(AddAll(maps, init), [m], topic);
      assert Has([m], topic) <==> m.topic == topic by {
        assert [m][0] == m;
      }
    }
  }

  /** Draining gives the old map and then the first occurrence of each new topic. */
  lemma {:induction false} AddAllIsFirstSeen(maps: seq<TopicMap>, news: seq<TopicMap>)
    ensures AddAll(maps, news) == maps + FirstSeen(maps, news)
    decreases |news|
  {
    hide AddAll;
    if news == [] {
      AddAllNil(maps);
    } else {
      var init, m := news[..|news| - 1], news[|news| - 1];
      assert news == init + [m];
      AddAllIsFirstSeen(maps, init);
      AddAllLast(maps, init, m);
      AddAllHas(maps, init, m.topic);
    }
  }

  lemma AddAllNil(maps: seq<TopicMap>)
    ensures AddAll(maps, []) == maps
  {}

  lemma {:induction false} AddAllDistinct(maps: seq<TopicMap>, news: seq<TopicMap>)
    requires Distinct(maps)
    ensures Distinct(AddAll(maps, news))
    decreases |news|
  {
    if news != [] {
      AddAllDistinct(if Has(maps, news[0].topic) then maps else maps + [news[0]], news[1..]);
    }
  }

  /** Topics that are all there already change nothing: neither order nor handlers. */
  lemma {:induction false} AddAllKnown(maps: seq<TopicMap>, news: seq<TopicMap>)
    requires forall i :: 0 <= i < |news| ==> Has(maps, news[i].topic)
    ensures AddAll(maps, news) == maps
    decreases |news|
  {
    if news != [] {
      assert Has(maps, news[0].topic);
      forall i | 0 <= i < |news[1..]| ensures Has(maps, news[1..][i].topic) {
        assert news[1..][i] == news[i + 1];
      }
      AddAllKnown(maps, news[1..]);
    }
  }

  // ---------- the invariant over every run ----------

  function Flat(packets: seq<seq<TopicMap>>): seq<TopicMap> {
    if packets == [] then [] else Flat(packets[..|packets| - 1]) + packets[|packets| - 1]
  }

  lemma FlatLast(packets: seq<seq<TopicMap>>, p: seq<TopicMap>)
    ensures Flat(packets + [p]) == Flat(packets) + p
  {
    assert (packets + [p])[..|packets|] == packets;
  }

  /** Topics are distinct, a SUBSCRIBE carries 1 to 7 topics, at most one is outstanding, and since
      the last connect every subscribed topic was carried by a SUBSCRIBE or is queued for one. */
  ghost predicate Inv(s: Sub) {
    && Distinct(s.maps)
    && (forall i :: 0 <= i < |s.carried| ==> 1 <= |s.carried[i]| <= BATCH)
    && s.outstanding == (if s.waiting then 1 else 0)
    && (forall t :: Has(s.maps, t) ==> Has(s.pending, t) || Has(Flat(s.carried), t))
  }

  lemma SubscribeKeeps(s: Sub, m: TopicMap)
    requires Inv(s)
    ensures Inv(Subscribe(s, m))
  {
    forall t | Has(s.pending, t) ensures Has(s.pending + [m], t) {
      HasConcat(s.pending, [m], t);
    }
  }

  lemma WriteableKeeps(s: Sub, fails: bool)
    requires Inv(s)
    ensures Inv(Writeable(s, fails))
  {
    hide Has, AddAll, Flat;
    if !(s.waiting || s.pending == [] || fails) {
      var n := BatchSize(s);
      var batch := s.pending[..n];
      var r := Writeable(s, fails);
      AddAllDistinct(s.maps, batch);
      FlatLast(s.carried, batch);
      assert s.pending == batch + r.pending;
      forall t | Has(r.maps, t) ensures Has(r.pending, t) || Has(Flat(r.carried), t) {
        AddAllHas(s.maps, batch, t);
        HasConcat(batch, r.pending, t);
        HasConcat(Flat(s.carried), batch, t);
      }
    }
  }

  lemma SubscribedKeeps(s: Sub)
    requires Inv(s)
    ensures Inv(Subscribed(s)) && Inv(Established(s))
  {}

  lemma ReconnectKeeps(s: Sub, connects: bool)
    requires Inv(s)
    ensures Inv(Reconnect(s, connects))
  {
    hide Has;
    if connects {
      forall t | Has(s.maps, t) ensures Has(s.pending + s.maps, t) {
        HasConcat(s.pending, s.maps, t);
      }
    }
  }

  // ---------- draining ----------

  /** One successful WRITEABLE and its SUBSCRIBED. */
  function Round(s: Sub): Sub {
    Subscribed(Writeable(s, false))
  }

  function Rounds(s: Sub, k: nat): Sub
    decreases k
  {
    if k == 0 then s else Rounds(Round(s), k - 1)
  }

  /** How many of n topics k rounds take. */
  function Taken(n: nat, k: nat): nat {
    if BATCH * k <= n then BATCH * k else n
  }

  lemma TakenNone(n: nat)
    ensures Taken(n, 0) == 0
  {}

  /** The first round takes a batch of b, the others take the rest. */
  lemma TakenAfter(n: nat, k: nat, b: nat)
    requires k > 0 && b == if n > BATCH then BATCH else n
    ensures Taken(n, k) == b + Taken(n - b, k - 1) <= n
  {}

  lemma Slices(s: seq<TopicMap>, b: nat, m: nat)
    requires b + m <= |s|
    ensures s[..b + m] == s[..b] + s[b..][..m] && s[b + m..] == s[b..][m..]
  {}

  /** ceil(n / 7) */
  function RoundsNeeded(n: nat): nat {
    (n + BATCH - 1) / BATCH
  }

  lemma RoundLaw(s: Sub)
    requires !s.waiting && s.outstanding == 0
    ensures var b := BatchSize(s); var r := Round(s);
            && r.pending == s.pending[b..] && r.maps == AddAll(s.maps, s.pending[..b])
            && Flat(r.carried) == Flat(s.carried) + s.pending[..b]
            && !r.waiting && r.outstanding == 0
  {
    hide AddAll, Flat;
    if s.pending == [] {
      AddAllNil(s.maps);
    } else {
      FlatLast(s.carried, s.pending[..BatchSize(s)]);
    }
  }

  lemma {:induction false} RoundsLaw(s: Sub, k: nat)
    requires !s.waiting && s.outstanding == 0
    ensures var n := Taken(|s.pending|, k);
            && Rounds(s, k).pending == s.pending[n..]
            && Rounds(s, k).maps == AddAll(s.maps, s.pending[..n])
            && Flat(Rounds(s, k).carried) == Flat(s.carried) + s.pending[..n]
            && !Rounds(s, k).waiting && Rounds(s, k).outstanding == 0
    decreases k
  {
    hide AddAll, Flat, Round, Taken;
    if k == 0 {
      assert Taken(|s.pending|, 0) == 0 by { TakenNone(|s.pending|); }
      AddAllNil(s.maps);
      assert s.pending[..0] == [] && s.pending[0..] == s.pending;
    } else {
      var r, b := Round(s), BatchSize(s);
      RoundLaw(s);
      RoundsLaw(r, k - 1);
      var m := Taken(|r.pending|, k - 1);
      TakenAfter(|s.pending|, k, b);
      Slices(s.pending, b, m);
      AddAllConcat(s.maps, s.pending[..b], r.pending[..m]);
    }
  }

  /** ceil(n / 7) rounds empty the list and no fewer do; then the map is the old one and the first
      occurrences of the new topics, and every queued topic was carried once, in order. */
  lemma Drain(s: Sub, k: nat)
    requires Inv(s) && !s.waiting
    ensures Rounds(s, k).pending == [] <==> k >= RoundsNeeded(|s.pending|)
    ensures k >= RoundsNeeded(|s.pending|) ==>
      && Rounds(s, k).maps == s.maps + FirstSeen(s.maps, s.pending)
      && Flat(Rounds(s, k).carried) == Flat(s.carried) + s.pending
  {
    RoundsLaw(s, k);
    AddAllIsFirstSeen(s.maps, s.pending);
    var n := Taken(|s.pending|, k);
    assert |Rounds(s, k).pending| == |s.pending| - n;
    if k >= RoundsNeeded(|s.pending|) {
      assert s.pending[..n] == s.pending;
    }
  }

  /** After a reconnect, draining carries every subscribed topic again on the new connection and
      leaves the map as draining without the reconnect would have: order, handlers and all. */
  lemma ReconnectResubscribes(s: Sub)
    requires Inv(s)
    ensures var r := Established(Reconnect(s, true));
            var t := Rounds(r, RoundsNeeded(|r.pending|));
            && t.pending == [] && t.maps == AddAll(s.maps, s.pending)
            && Flat(t.carried) == s.pending + s.maps
  {
    var r := Established(Reconnect(s, true));
    ReconnectKeeps(s, true);
    var k := RoundsNeeded(|r.pending|);
    Drain(r, k);
    AddAllIsFirstSeen(r.maps, r.pending);
    AddAllConcat(s.maps, s.pending, s.maps);
    var maps := AddAll(s.maps, s.pending);
    forall i | 0 <= i < |s.maps| ensures Has(maps, s.maps[i].topic) {
      AddAllHas(s.maps, s.pending, s.maps[i].topic);
    }
    AddAllKnown(maps, s.maps);
  }
}
