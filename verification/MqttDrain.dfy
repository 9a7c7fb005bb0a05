/** Progress of the publish queue: how many WRITEABLE and ACK rounds it takes to send everything. */
module MqttDrain {
  import opened Wrappers
  import opened MqttPub

  predicate Sends1(e: Entry) {
    CanSend(e) && e.qos == QOS1
  }

  /** The number of QoS 1 messages still to be sent. */
  function Qos1Left(list: seq<Entry>): nat {
    if list == [] then 0
    else Qos1Left(list[..|list| - 1]) + if Sends1(list[|list| - 1]) then 1 else 0
  }

  lemma {:induction false} LeftConcat(a: seq<Entry>, b: seq<Entry>)
    ensures Qos1Left(a + b) == Qos1Left(a) + Qos1Left(b)
  {
    if b == [] {
      assert a + b == a;
    } else {
      assert (a + b)[..|a + b| - 1] == a + b[..|b| - 1];
      LeftConcat(a, b[..|b| - 1]);
    }
  }

  lemma LeftOne(e: Entry)
    ensures Qos1Left([e]) == if Sends1(e) then 1 else 0
  {
    assert [e][..0] == [];
  }

  lemma LeftSplit(a: seq<Entry>, e: Entry, b: seq<Entry>)
    ensures Qos1Left(a + [e] + b) == Qos1Left(a) + (if Sends1(e) then 1 else 0) + Qos1Left(b)
  {
    hide Qos1Left, Sends1;
    LeftConcat(a + [e], b);
    LeftConcat(a, [e]);
    LeftOne(e);
  }

  lemma {:induction false} LeftOfNothing(list: seq<Entry>)
    requires Sendable(list) == []
    ensures Qos1Left(list) == 0
  {
    if list != [] {
      LeftOfNothing(list[..|list| - 1]);
    }
  }

  /** A send loop without failures either stops at a QoS 1 message, one fewer is left then, or leaves
      nothing to send. */
  lemma {:induction false} SendFromLeft(list: seq<Entry>, i: nat)
    requires i <= |list| && Sendable(list[..i]) == []
    ensures var r := SendFrom(list, i, []);
            if r.stopped.Some? then Qos1Left(r.list) + 1 == Qos1Left(list)
            else Sendable(r.list) == [] && Qos1Left(r.list) == Qos1Left(list)
    decreases |list| - i
  {
    hide Sendable, Qos1Left;
    if i == |list| {
      assert list[..i] == list;
    } else {
      var a, e, b := list[..i], list[i], list[i + 1..];
      var d := e.(sent := true);
      var m := list[i := d];
      Around(list, i);
      AroundUpdate(list, i, d);
      LeftSplit(a, e, b);
      LeftSplit(a, d, b);
      SendableSplit(a, e, []);
      SendableSplit(a, d, []);
      SendableNil();
      assert list[..i + 1] == a + [e] + [] && m[..i + 1] == a + [d] + [];
      if !CanSend(e) {
        SendFromLeft(list, i + 1);
      } else if e.qos == QOS0 {
        SendFromLeft(m, i + 1);
      }
    }
  }

  lemma {:induction false} KeepLeft(list: seq<Entry>)
    ensures Qos1Left(Keep(list)) == Qos1Left(list)
  {
    if list != [] {
      var init, e := list[..|list| - 1], list[|list| - 1];
      KeepLeft(init);
      if Done(e) {
        assert Keep(list) == Keep(init);
      } else {
        LeftConcat(Keep(init), [e]);
        LeftOne(e);
      }
    }
  }

  lemma AckLeft(s: Pub)
    ensures Qos1Left(Ack(s).list) == Qos1Left(s.list) && Sendable(Ack(s).list) == Sendable(s.list) && !Ack(s).waiting
  {
    hide Qos1Left, Sendable;
    var k := AckIndex(s.list, 0);
    if s.waiting && k < |s.list| {
      var a, e, b := s.list[..k], s.list[k], s.list[k + 1..];
      Around(s.list, k);
      LeftSplit(a, e, b);
      LeftConcat(a, b);
      SendableSplit(a, e, b);
      SendableConcat(a, b);
    }
  }

  /** A WRITEABLE in which every send succeeds, and the ACK that may follow. */
  function Round(s: Pub): Pub {
    Ack(Writeable(s, []))
  }

  function Rounds(s: Pub, k: nat): Pub
    decreases k
  {
    if k == 0 then s else Rounds(Round(s), k - 1)
  }

  lemma RoundLeft(s: Pub)
    requires !s.waiting
    ensures var t := Round(s);
            && !t.waiting && t.order == s.order
            && (if Qos1Left(s.list) > 0 then Qos1Left(t.list) == Qos1Left(s.list) - 1
                else Sendable(t.list) == [] && Qos1Left(t.list) == 0)
  {
    hide Qos1Left, Sendable, SendFrom;
    var r := SendFrom(s.list, 0, []);
    assert Sendable(s.list[..0]) == [] by { SendableNil(); }
    SendFromLeft(s.list, 0);
    KeepLeft(r.list);
    KeepSendable(r.list);
    AckLeft(Writeable(s, []));
    if r.stopped.None? {
      LeftOfNothing(r.list);
    }
  }

  /** With q QoS 1 messages still to be sent, fewer than q rounds leave something to send, and q + 1
      rounds send everything: the wire then holds the accepted messages in order of acceptance. */
  lemma {:induction false} Drain(s: Pub, k: nat)
    requires !s.waiting && InOrder(s)
    ensures var q := Qos1Left(s.list); var t := Rounds(s, k);
            && Qos1Left(t.list) == (if k <= q then q - k else 0)
            && (k < q ==> Sendable(t.list) != [])
            && (k > q ==> Sendable(t.list) == [] && t.wired == s.order)
    decreases k
  {
    hide Qos1Left, Sendable, Round;
    if k > 0 {
      RoundLeft(s);
      RoundInOrder(s);
      if k == 1 && Qos1Left(s.list) == 0 {
        assert Rounds(Round(s), 0) == Round(s);
        assert Round(s).wired + [] == Round(s).wired;
      }
      Drain(Round(s), k - 1);
    }
    if Sendable(Rounds(s, k).list) == [] {
      LeftOfNothing(Rounds(s, k).list);
    }
  }

  lemma RoundInOrder(s: Pub)
    requires InOrder(s)
    ensures InOrder(Round(s))
  {
    WriteableInOrder(s, []);
    AckInOrder(Writeable(s, []));
  }
}
