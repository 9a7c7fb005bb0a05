/** The order on the wire when sends may fail: exactly which WRITEABLE events break it. */
module MqttOrder {
  import opened Wrappers
  import opened MqttPub

  /** Handles are given to one entry only. */
  ghost predicate Distinct(list: seq<Entry>) {
    forall i, j :: 0 <= i < j < |list| ==> list[i].handle != list[j].handle
  }

  /** From index i on, the loop sends a message successfully after a send that failed; failed says
      whether one failed before i. The loop ends at its first successful QoS 1 send. */
  predicate Overtakes(list: seq<Entry>, i: nat, fails: seq<bool>, failed: bool)
    requires i <= |list|
    decreases |list| - i
  {
    if i == |list| then false
    else if !CanSend(list[i]) then Overtakes(list, i + 1, fails, failed)
    else if Fails(fails, i) then Overtakes(list, i + 1, fails, true)
    else failed || (list[i].qos == QOS0 && Overtakes(list, i + 1, fails, false))
  }

  lemma {:induction false} OvertakesSame(list: seq<Entry>, m: seq<Entry>, i: nat, fails: seq<bool>, failed: bool)
    requires i <= |list| == |m| && forall j :: i <= j < |list| ==> list[j] == m[j]
    ensures Overtakes(list, i, fails, failed) == Overtakes(m, i, fails, failed)
    decreases |list| - i
  {
    if i < |list| {
      OvertakesSame(list, m, i + 1, fails, failed);
      OvertakesSame(list, m, i + 1, fails, true);
      OvertakesSame(list, m, i + 1, fails, false);
    }
  }

  /** After a failed send the loop keeps the order exactly when it sends nothing more. */
  lemma {:induction false} AfterFailure(list: seq<Entry>, i: nat, fails: seq<bool>)
    requires i <= |list|
    ensures var r := SendFrom(list, i, fails);
            if Overtakes(list, i, fails, true) then
              r.wired != [] && exists j :: i <= j < |list| && list[j].handle == r.wired[0]
            else r == Sending(list, [], None)
    decreases |list| - i
  {
    if i < |list| {
      AfterFailure(list, i + 1, fails);
      if CanSend(list[i]) && !Fails(fails, i) {
        assert SendFrom(list, i, fails).wired[0] == list[i].handle;
      }
    }
  }

  /** The send loop sends a prefix of what can be sent if and only if it does not overtake. */
  lemma {:induction false} SendFromOrder(list: seq<Entry>, i: nat, fails: seq<bool>)
    requires i <= |list| && Distinct(list) && Sendable(list[..i]) == []
    ensures var r := SendFrom(list, i, fails);
            && (r.wired <= Sendable(list) <==> !Overtakes(list, i, fails, false))
            && (!Overtakes(list, i, fails, false) ==> Sendable(list) == r.wired + Sendable(r.list))
    decreases |list| - i
  {
    hide Sendable;
    if i < |list| {
      var a, e, b := list[..i], list[i], list[i + 1..];
      var d := e.(sent := true);
      var m := list[i := d];
      Around(list, i);
      AroundUpdate(list, i, d);
      SendableSplit(a, e, b);
      SendableSplit(a, d, b);
      SendableSplit(a, e, []);
      SendableSplit(a, d, []);
      SendableNil();
      assert list[..i + 1] == a + [e] + [] && m[..i + 1] == a + [d] + [];
      if !CanSend(e) {
        SendFromOrder(list, i + 1, fails);
      } else if Fails(fails, i) {
        AfterFailure(list, i + 1, fails);
        assert Sendable(list)[0] == e.handle;
      } else if e.qos == QOS0 {
        SendFromOrder(m, i + 1, fails);
        OvertakesSame(list, m, i + 1, fails, false);
        PrefixCons(e.handle, SendFrom(m, i + 1, fails).wired, Sendable(m));
        assert Sendable(list) == [e.handle] + Sendable(m);
      } else {
        assert Sendable(list) == [e.handle] + Sendable(m);
      }
    }
  }

  lemma PrefixCons(h: nat, x: seq<nat>, y: seq<nat>)
    ensures [h] + x <= [h] + y <==> x <= y
  {
    if [h] + x <= [h] + y {
      assert x == ([h] + x)[1..] && y == ([h] + y)[1..];
    }
  }

  lemma PrefixAfter(w: seq<nat>, x: seq<nat>, y: seq<nat>)
    ensures w + x <= w + y <==> x <= y
  {
    if w + x <= w + y {
      assert x == (w + x)[|w|..] && y == (w + y)[|w|..];
    }
  }

  /** Whatever fails, the loop sends only what can be sent, and each message once. */
  lemma {:induction false} SendFromCounts(list: seq<Entry>, i: nat, fails: seq<bool>)
    requires i <= |list|
    ensures var r := SendFrom(list, i, fails);
            multiset(Sendable(list)) == multiset(r.wired) + multiset(Sendable(r.list))
    decreases |list| - i
  {
    hide Sendable;
    if i < |list| {
      var a, e, b := list[..i], list[i], list[i + 1..];
      var d := e.(sent := true);
      Around(list, i);
      AroundUpdate(list, i, d);
      SendableSplit(a, e, b);
      SendableSplit(a, d, b);
      if !CanSend(e) || Fails(fails, i) {
        SendFromCounts(list, i + 1, fails);
      } else {
        var m := list[i := d];
        TakeOut(Sendable(a), e.handle, Sendable(b));
        assert Sendable(m) == Sendable(a) + Sendable(b);
        if e.qos == QOS0 {
          SendFromCounts(m, i + 1, fails);
          var r := SendFrom(m, i + 1, fails);
          assert multiset([e.handle] + r.wired) == multiset([e.handle]) + multiset(r.wired);
        }
      }
    }
  }

  // ---------- the callbacks ----------

  /** What was accepted with QoS 0 or 1 is what was wired and what can still be sent, each once. */
  ghost predicate Counts(s: Pub) {
    multiset(s.wired) + multiset(Sendable(s.list)) == multiset(s.order)
  }

  lemma InvDistinct(s: Pub)
    requires Inv(s)
    ensures Distinct(s.list)
  {
    hide Unsent, Awaiting, UpTo;
    var h := Handles(s.list);
    OnceEach(h, s.freed, s.next);
    assert forall i :: 0 <= i < |s.list| ==> h[i] == s.list[i].handle;
  }

  /** From a state in order, a WRITEABLE leaves the wire order a prefix of the order of acceptance if
      and only if it does not overtake; and then the rest is what can still be sent, in order. */
  lemma WriteableOrder(s: Pub, fails: seq<bool>)
    requires Inv(s) && InOrder(s)
    ensures var t := Writeable(s, fails); var keeps := s.waiting || !Overtakes(s.list, 0, fails, false);
            (t.wired <= t.order <==> keeps) && (InOrder(t) <==> keeps)
  {
    hide Sendable, Inv, Overtakes;
    InvDistinct(s);
    if !s.waiting {
      var r := SendFrom(s.list, 0, fails);
      assert Sendable(s.list[..0]) == [] by { SendableNil(); }
      SendFromOrder(s.list, 0, fails);
      KeepSendable(r.list);
      PrefixAfter(s.wired, r.wired, Sendable(s.list));
    } else {
      assert s.wired <= s.wired + Sendable(s.list);
    }
  }

  lemma WriteableCounts(s: Pub, fails: seq<bool>)
    requires Counts(s)
    ensures Counts(Writeable(s, fails))
  {
    hide Sendable, SendFrom, Keep, Drop;
    var r := SendFrom(s.list, 0, fails);
    SendFromCounts(s.list, 0, fails);
    KeepSendable(r.list);
    MoveOver(s.wired, r.wired, Sendable(s.list), Sendable(r.list), multiset(s.order));
  }

  lemma PublishCounts(s: Pub, qos: int)
    requires Counts(s)
    ensures Counts(Publish(s, qos))
  {
    hide Sendable;
    var e := Entry(s.next, qos, false);
    SendableConcat(s.list, [e]);
    SendableOne(e);
  }

  lemma AckCounts(s: Pub)
    requires Counts(s)
    ensures Counts(Ack(s))
  {
    hide Sendable;
    var k := AckIndex(s.list, 0);
    if s.waiting && k < |s.list| {
      Around(s.list, k);
      SendableSplit(s.list[..k], s.list[k], s.list[k + 1..]);
      SendableConcat(s.list[..k], s.list[k + 1..]);
    }
  }

  /** Only accepted messages of QoS 0 and 1 are ever on the wire, and those that are not can be sent. */
  lemma CountsMembers(s: Pub)
    requires Counts(s)
    ensures |s.wired| <= |s.order|
    ensures forall h: nat :: h in s.order <==> h in s.wired || h in Sendable(s.list)
  {
    hide Sendable;
    var w, u, o := multiset(s.wired), multiset(Sendable(s.list)), multiset(s.order);
    assert |w| + |u| == |o|;
    forall h: nat ensures h in s.order <==> h in s.wired || h in Sendable(s.list) {
      assert (w + u)[h] == w[h] + u[h];
      assert h in s.order <==> o[h] > 0;
      assert h in s.wired <==> w[h] > 0;
      assert h in Sendable(s.list) <==> u[h] > 0;
    }
  }
}
