/** The client context of src/iot/iot_mqtt.c: each API call and callback as a method that changes the
    context's fields, proved to do the step of module Mqtt. */
module MqttClient {
  import opened Wrappers
  import P = MqttPub
  import S = MqttSub
  import M = Mqtt

  /** A publish parameter: copy is the number of the duplicated topic and payload. */
  datatype Param = Param(copy: nat, qos: int)

  function Zip(params: seq<Param>, sentList: seq<bool>): (list: seq<P.Entry>)
    requires |params| == |sentList|
    ensures |list| == |params|
  {
    seq(|params|, i requires 0 <= i < |params| => P.Entry(params[i].copy, params[i].qos, sentList[i]))
  }

  /** What the steps of these events are. */
  lemma StepIs(s: M.State, qos: int)
    ensures M.Step(s, M.Publish(qos)) == s.(pub := P.Publish(s.pub, qos))
    ensures M.Step(s, M.Ack) == s.(pub := P.Ack(s.pub))
    ensures M.Step(s, M.Established) == M.State(P.Established(s.pub), S.Established(s.sub))
  {}

  /** i entries of list are compacted into the first n of now; the rest has not been touched. */
  ghost predicate Compacted(list: seq<P.Entry>, now: seq<P.Entry>, n: nat, i: nat) {
    && n <= i <= |now| == |list|
    && now[..n] == P.Keep(list[..i])
    && now[i..] == list[i..]
  }

  lemma CompactOne(list: seq<P.Entry>, now: seq<P.Entry>, n: nat, i: nat)
    requires Compacted(list, now, n, i) && i < |list|
    ensures now[i] == list[i]
    ensures if P.Done(list[i]) then Compacted(list, now, n, i + 1)
            else Compacted(list, now[n := now[i]], n + 1, i + 1)
    ensures P.Drop(list[..i + 1]) == P.Drop(list[..i]) + if P.Done(list[i]) then [list[i].handle] else []
  {
    assert now[i] == now[i..][0] && list[i] == list[i..][0];
    assert now[i + 1..] == now[i..][1..] && list[i + 1..] == list[i..][1..];
    assert list[..i + 1][..i] == list[..i] && list[..i + 1][i] == list[i];
    assert now[n := now[i]][..n + 1] == now[..n] + [now[i]];
    assert now[n := now[i]][i + 1..] == now[i + 1..];
  }

  lemma NothingCompacted(list: seq<P.Entry>)
    ensures Compacted(list, list, 0, 0) && P.Drop(list[..0]) == []
  {}

  lemma AllCompacted(list: seq<P.Entry>, now: seq<P.Entry>, n: nat)
    requires Compacted(list, now, n, |list|)
    ensures now[..n] == P.Keep(list) && list[..|list|] == list
  {
    assert list[..|list|] == list;
  }

  lemma EntryAt(params: seq<Param>, sentList: seq<bool>, i: nat)
    requires i < |params| == |sentList|
    ensures Zip(params, sentList)[i] == P.Entry(params[i].copy, params[i].qos, sentList[i])
  {}

  lemma ZipMove(params: seq<Param>, sentList: seq<bool>, n: nat, i: nat)
    requires n <= i < |params| == |sentList|
    ensures var list := Zip(params, sentList);
            Zip(params[n := params[i]], sentList[n := sentList[i]]) == list[n := list[i]]
            && (n == i ==> list[n := list[i]] == list)
  {}

  lemma ZipMark(params: seq<Param>, sentList: seq<bool>, i: nat)
    requires i < |params| == |sentList|
    ensures var list := Zip(params, sentList);
            Zip(params, sentList[i := true]) == list[i := list[i].(sent := true)]
  {}

  lemma ZipCut(params: seq<Param>, sentList: seq<bool>, n: nat)
    requires n <= |params| == |sentList|
    ensures Zip(params[..n], sentList[..n]) == Zip(params, sentList)[..n]
    ensures n == |params| ==> params[..n] == params && sentList[..n] == sentList
  {}

  class MqttContext {
    var waitingForPuback: bool
    var waitingForSuback: bool
    var publishParams: seq<Param>
    var sentList: seq<bool>
    var pendingSubList: seq<S.TopicMap>
    var subTopicMaps: seq<S.TopicMap>

    // what the context did to the outside: copies made and accepted, publishes and SUBSCRIBEs
    // handed to the wire, copies freed
    ghost var next: nat
    ghost var order: seq<nat>
    ghost var wired: seq<nat>
    ghost var freed: seq<nat>
    ghost var orphans: nat
    ghost var inFlight: Option<nat>
    ghost var outstanding: nat
    ghost var carried: seq<seq<S.TopicMap>>

    ghost predicate Valid()
      reads this
    {
      |publishParams| == |sentList| && waitingForPuback == inFlight.Some?
    }

    ghost function List(): seq<P.Entry>
      reads this
      requires Valid()
    {
      Zip(publishParams, sentList)
    }

    ghost function Pub(): P.Pub
      reads this
      requires Valid()
    {
      P.Pub(List(), waitingForPuback, next, order, wired, freed, orphans, inFlight)
    }

    ghost function Sub(): S.Sub
      reads this
    {
      S.Sub(pendingSubList, subTopicMaps, waitingForSuback, outstanding, carried)
    }

    ghost function State(): M.State
      reads this
      requires Valid()
    {
      M.State(Pub(), Sub())
    }

    constructor ()
      ensures Valid() && State() == M.INIT
    {
      waitingForPuback, waitingForSuback := false, false;
      publishParams, sentList, pendingSubList, subTopicMaps := [], [], [], [];
      next, order, wired, freed, orphans, inFlight := 0, [], [], [], 0, None;
      outstanding, carried := 0, [];
    }

    // ---------- publishing ----------

    method Publish(copy: nat, qos: int) returns (ok: bool)
      requires Valid() && copy == next
      modifies this
      ensures Valid() && State() == M.Step(old(State()), M.Publish(qos))
      ensures ok <==> old(|publishParams|) <= 10
    {
      hide M.Step;
      StepIs(State(), qos);
      if |publishParams| > 10 {
        return false;
      }
      ghost var list := List();
      publishParams := publishParams + [Param(copy, qos)];
      sentList := sentList + [false];
      order := order + if qos in {P.QOS0, P.QOS1} then [next] else [];
      next := next + 1;
      assert List() == list + [P.Entry(copy, qos, false)];
      return true;
    }

    /** The send loop of WRITEABLE. */
    method SendPending(fails: seq<bool>)
      requires Valid() && !waitingForPuback
      modifies this`sentList, this`waitingForPuback, this`wired, this`inFlight
      ensures Valid()
      ensures var r := P.SendFrom(old(List()), 0, fails);
              && List() == r.list && wired == old(wired) + r.wired
              && waitingForPuback == r.stopped.Some? && inFlight == r.stopped
    {
      hide Zip;
      ghost var all := P.SendFrom(List(), 0, fails);
      var i := 0;
      while i < |publishParams|
        invariant Valid() && i <= |publishParams| && !waitingForPuback
        invariant var r := P.SendFrom(List(), i, fails);
                  all.list == r.list && old(wired) + all.wired == wired + r.wired && all.stopped == r.stopped
      {
        EntryAt(publishParams, sentList, i);
        ZipMark(publishParams, sentList, i);
        if !sentList[i] {
          var param := publishParams[i];
          if param.qos == P.QOS0 {
            var failed := i < |fails| && fails[i];
            if !failed {
              wired := wired + [param.copy];
              sentList := sentList[i := true];
            }
          } else if param.qos == P.QOS1 {
            var failed := i < |fails| && fails[i];
            if !failed {
              wired := wired + [param.copy];
              waitingForPuback, inFlight := true, Some(param.copy);
              sentList := sentList[i := true];
              break;
            }
          }
        }
        i := i + 1;
      }
    }

    /** The compaction that follows it: entries move down over the freed ones, and the count is cut. */
    method Compact()
      requires Valid()
      modifies this`publishParams, this`sentList, this`freed
      ensures Valid() && List() == P.Keep(old(List())) && freed == old(freed) + P.Drop(old(List()))
    {
      hide P.Keep, P.Drop, Compacted, Zip;
      ghost var list := List();
      assert Compacted(list, list, 0, 0) && P.Drop(list[..0]) == [] by { NothingCompacted(list); }
      var newCount, i := 0, 0;
      while i < |publishParams|
        invariant Valid() && newCount <= i <= |publishParams| == |list|
        invariant Compacted(list, List(), newCount, i)
        invariant freed == old(freed) + P.Drop(list[..i])
      {
        CompactOne(list, List(), newCount, i);
        EntryAt(publishParams, sentList, i);
        var isSentQos0 := sentList[i] && publishParams[i].qos == P.QOS0;
        if isSentQos0 {
          freed := freed + [publishParams[i].copy];
        } else {
          ZipMove(publishParams, sentList, newCount, i);
          if newCount != i {
            publishParams := publishParams[newCount := publishParams[i]];
            sentList := sentList[newCount := sentList[i]];
          }
          newCount := newCount + 1;
        }
        i := i + 1;
      }
      AllCompacted(list, List(), newCount);
      ZipCut(publishParams, sentList, newCount);
      if newCount < |publishParams| {
        publishParams, sentList := publishParams[..newCount], sentList[..newCount];
      }
    }

    method FindAcked() returns (i: nat)
      requires Valid()
      ensures Valid() && i == P.AckIndex(List(), 0)
    {
      i := 0;
      while i < |publishParams| && !(sentList[i] && publishParams[i].qos != P.QOS0)
        invariant i <= |publishParams|
        invariant P.AckIndex(List(), 0) == P.AckIndex(List(), i)
      {
        i := i + 1;
      }
    }

    method Remove(i: nat)
      requires Valid() && i < |publishParams|
      modifies this`publishParams, this`sentList, this`freed
      ensures Valid() && List() == old(List()[..i] + List()[i + 1..])
      ensures freed == old(freed) + [old(List())[i].handle]
    {
      ghost var list := List();
      freed := freed + [publishParams[i].copy];
      publishParams := publishParams[..i] + publishParams[i + 1..];
      sentList := sentList[..i] + sentList[i + 1..];
      assert List() == list[..i] + list[i + 1..];
    }

    /** Callback MQTT_ACK. */
    method Ack()
      requires Valid()
      modifies this`publishParams, this`sentList, this`freed, this`waitingForPuback, this`inFlight
      ensures Valid() && State() == M.Step(old(State()), M.Ack)
    {
      hide P.AckIndex, Zip, M.Step;
      StepIs(State(), 0);
      if !waitingForPuback {
        return;
      }
      var i := FindAcked();
      if i < |publishParams| {
        Remove(i);
      }
      waitingForPuback, inFlight := false, None;
    }

    // ---------- subscribing ----------

    method AppendSubTopic(topicMap: S.TopicMap)
      modifies this`pendingSubList
      ensures pendingSubList == old(pendingSubList) + [topicMap]
    {
      pendingSubList := pendingSubList + [topicMap];
    }

    method Subscribe(topicMap: S.TopicMap)
      requires Valid()
      modifies this`pendingSubList
      ensures Valid() && State() == M.Step(old(State()), M.Subscribe(topicMap))
    {
      for i := 0 to |subTopicMaps|
        invariant forall j :: 0 <= j < i ==> subTopicMaps[j].topic != topicMap.topic
      {
        if topicMap.topic == subTopicMaps[i].topic {
          return;
        }
      }
      AppendSubTopic(topicMap);
    }

    /** The loop of WRITEABLE that moves the first topics of the list into the map. */
    method MoveToMaps(count: nat)
      requires count <= |pendingSubList|
      modifies this`subTopicMaps
      ensures subTopicMaps == S.AddAll(old(subTopicMaps), pendingSubList[..count])
    {
      S.AddAllNil(subTopicMaps);
      assert pendingSubList[..0] == [];
      for i := 0 to count
        invariant subTopicMaps == S.AddAll(old(subTopicMaps), pendingSubList[..i])
      {
        var topicMap := pendingSubList[i];
        var isDuplicate := false;
        for j := 0 to |subTopicMaps|
          invariant !isDuplicate
          invariant forall k :: 0 <= k < j ==> subTopicMaps[k].topic != topicMap.topic
        {
          if topicMap.topic == subTopicMaps[j].topic {
            isDuplicate := true;
            break;
          }
        }
        assert pendingSubList[..i + 1] == pendingSubList[..i] + [topicMap];
        S.AddAllLast(old(subTopicMaps), pendingSubList[..i], topicMap);
        if !isDuplicate {
          subTopicMaps := subTopicMaps + [topicMap];
        }
      }
    }

    method WriteSubscriptions(fails: bool)
      requires Valid() && !waitingForSuback && pendingSubList != []
      modifies this`pendingSubList, this`subTopicMaps, this`waitingForSuback, this`outstanding, this`carried
      ensures Sub() == S.Writeable(old(Sub()), fails)
    {
      hide S.AddAll;
      var numToSubscribe := if |pendingSubList| > 7 then 7 else |pendingSubList|;
      if fails {
        return;
      }
      carried := carried + [pendingSubList[..numToSubscribe]];
      outstanding := outstanding + 1;
      waitingForSuback := true;
      MoveToMaps(numToSubscribe);
      pendingSubList := pendingSubList[numToSubscribe..];
    }

    method WritePublishes(fails: seq<bool>)
      requires Valid()
      modifies this`publishParams, this`sentList, this`waitingForPuback, this`wired, this`freed, this`inFlight
      ensures Valid() && Pub() == P.Writeable(old(Pub()), fails)
    {
      hide P.SendFrom, P.Keep, P.Drop, Zip;
      if !waitingForPuback {
        SendPending(fails);
        Compact();
      }
    }

    /** Callback MQTT_CLIENT_WRITEABLE. */
    method Writeable(pubFails: seq<bool>, subFails: bool)
      requires Valid()
      modifies this
      ensures Valid() && State() == M.Step(old(State()), M.Writeable(pubFails, subFails))
    {
      hide P.Writeable, S.Writeable, Zip;
      if waitingForSuback {
        return;
      }
      if |pendingSubList| > 0 {
        WriteSubscriptions(subFails);
        return;
      }
      WritePublishes(pubFails);
    }

    /** Callback MQTT_SUBSCRIBED. */
    method Subscribed()
      requires Valid()
      modifies this`waitingForSuback, this`outstanding
      ensures Valid() && State() == M.Step(old(State()), M.Subscribed)
    {
      waitingForSuback := false;
      outstanding := if outstanding > 0 then outstanding - 1 else 0;
    }

    // ---------- connecting ----------

    /** Callback MQTT_CLIENT_ESTABLISHED. */
    method Established()
      requires Valid()
      modifies this`waitingForPuback, this`waitingForSuback, this`orphans, this`inFlight, this`outstanding
      ensures Valid() && State() == M.Step(old(State()), M.Established)
    {
      hide Zip, M.Step;
      StepIs(State(), 0);
      orphans := orphans + if waitingForPuback then 1 else 0;
      inFlight, outstanding := None, 0;
      waitingForPuback := false;
      waitingForSuback := false;
    }

    /** iot_mqtt_reconnect: after a successful connect every subscribed topic is queued again. */
    method Reconnect(connects: bool)
      requires Valid()
      modifies this`pendingSubList, this`carried
      ensures Valid() && State() == M.Step(old(State()), M.Reconnect(connects))
    {
      hide Zip;
      if !connects {
        return;
      }
      carried := [];
      for i := 0 to |subTopicMaps|
        invariant pendingSubList == old(pendingSubList) + subTopicMaps[..i]
        invariant carried == []
      {
        AppendSubTopic(subTopicMaps[i]);
        assert subTopicMaps[..i + 1] == subTopicMaps[..i] + [subTopicMaps[i]];
      }
      assert subTopicMaps[..|subTopicMaps|] == subTopicMaps;
    }

    /** Callback MQTT_CLIENT_CLOSED. */
    method Closed(autoReconnect: bool, connects: bool)
      requires Valid()
      modifies this`pendingSubList, this`carried
      ensures Valid() && State() == M.Step(old(State()), M.Closed(autoReconnect, connects))
    {
      if autoReconnect {
        Reconnect(connects);
      }
    }

    /** The publish part of iot_mqtt_deinit. */
    method Deinit()
      requires Valid()
      modifies this`publishParams, this`sentList, this`freed
      ensures Valid() && Pub() == P.Deinit(old(Pub()))
    {
      ghost var handles := P.Handles(List());
      for i := 0 to |publishParams|
        invariant freed == old(freed) + handles[..i]
      {
        freed := freed + [publishParams[i].copy];
      }
      assert handles[..|handles|] == handles;
      publishParams, sentList := [], [];
    }
  }
}
