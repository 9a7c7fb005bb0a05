/** The publish queue of src/iot/iot_mqtt.c as a function of its events: what each callback does
    to the pending list, with logs of what was handed to the wire and what was freed. */
module MqttPub {
  import opened Wrappers

  /** One pending publish. The handle stands for its copy of topic and payload; handles are given
      out in the order in which iot_mqtt_publish accepts messages. */
  datatype Entry = Entry(handle: nat, qos: int, sent: bool)

  /** The pending list and the waiting flag, with logs. next: how many messages were accepted so far;
      order: those of QoS 0 and QoS 1 in order of acceptance; wired: the handles the send call took,
      in order; freed: the handles whose copies were freed; orphans: ESTABLISHED events seen while
      waiting; inFlight: the QoS 1 message the waiting flag is about. */
  datatype Pub = Pub(list: seq<Entry>, waiting: bool, next: nat, order: seq<nat>, wired: seq<nat>,
                     freed: seq<nat>, orphans: nat, inFlight: Option<nat>)

  const EMPTY := Pub([], false, 0, [], [], [], 0, None)

  const QOS0 := 0
  const QOS1 := 1

  // ---------- iot_mqtt_publish ----------

  predicate Accepts(s: Pub) {
    |s.list| <= 10
  }

  function Publish(s: Pub, qos: int): Pub {
    if Accepts(s) then
      s.(list := s.list + [Entry(s.next, qos, false)], next := s.next + 1,
         order := s.order + if qos in {QOS0, QOS1} then [s.next] else [])
    else s
  }

  // ---------- WRITEABLE ----------

  /** What the send loop does: the marked list, the handles sent, and the QoS 1 message it stopped at. */
  datatype Sending = Sending(list: seq<Entry>, wired: seq<nat>, stopped: Option<nat>)

  predicate Fails(fails: seq<bool>, i: nat) {
    i < |fails| && fails[i]
  }

  /** The send loop from index i on; fails says which send calls return an error. */
  function SendFrom(list: seq<Entry>, i: nat, fails: seq<bool>): (r: Sending)
    requires i <= |list|
    ensures |r.list| == |list|
    decreases |list| - i
  {
    if i == |list| then Sending(list, [], None)
    else
      var e := list[i];
      if e.sent || e.qos !in {QOS0, QOS1} || Fails(fails, i) then SendFrom(list, i + 1, fails)
      else if e.qos == QOS0 then
        var r := SendFrom(list[i := e.(sent := true)], i + 1, fails);
        r.(wired := [e.handle] + r.wired)
      else Sending(list[i := e.(sent := true)], [e.handle], Some(e.handle))
  }

  predicate Done(e: Entry) {
    e.sent && e.qos == QOS0
  }

  /** Compaction: the entries that stay, and the handles that are freed. */
  function Keep(list: seq<Entry>): seq<Entry> {
    if list == [] then []
    else
      var e := list[|list| - 1];
      Keep(list[..|list| - 1]) + if Done(e) then [] else [e]
  }

  function Drop(list: seq<Entry>): seq<nat> {
    if list == [] then []
    else
      var e := list[|list| - 1];
      Drop(list[..|list| - 1]) + if Done(e) then [e.handle] else []
  }

  function Writeable(s: Pub, fails: seq<bool>): Pub {
    if s.waiting then s
    else
      var r := SendFrom(s.list, 0, fails);
      s.(list := Keep(r.list), wired := s.wired + r.wired, freed := s.freed + Drop(r.list),
         waiting := r.stopped.Some?, inFlight := r.stopped)
  }

  // ---------- ACK, ESTABLISHED, deinit ----------

  /** The index of the first sent entry that is not QoS 0, or the length. */
  function AckIndex(list: seq<Entry>, i: nat): (k: nat)
    requires i <= |list|
    ensures i <= k <= |list|
    ensures k < |list| ==> list[k].sent && list[k].qos != QOS0
    ensures forall j :: i <= j < k ==> !(list[j].sent && list[j].qos != QOS0)
    decreases |list| - i
  {
    if i < |list| && !(list[i].sent && list[i].qos != QOS0) then AckIndex(list, i + 1) else i
  }

  function Ack(s: Pub): Pub {
    if !s.waiting then s
    else
      var k := AckIndex(s.list, 0);
      var t := s.(waiting := false, inFlight := None);
      if k < |s.list| then t.(list := s.list[..k] + s.list[k + 1..], freed := s.freed + [s.list[k].handle]) else t
  }

  function Established(s: Pub): Pub {
    s.(waiting := false, inFlight := None, orphans := s.orphans + if s.waiting then 1 else 0)
  }

  function Handles(list: seq<Entry>): seq<nat> {
    seq(|list|, i requires 0 <= i < |list| => list[i].handle)
  }

  /** The publish part of iot_mqtt_deinit. */
  function Deinit(s: Pub): Pub {
    s.(list := [], freed := s.freed + Handles(s.list))
  }

  // ---------- accounting ----------

  function UpTo(n: nat): seq<nat> {
    seq(n, i => i)
  }

  /** The handles still to be sent, in list order. */
  function Unsent(list: seq<Entry>): seq<nat> {
    if list == [] then []
    else
      var e := list[|list| - 1];
      Unsent(list[..|list| - 1]) + if e.sent then [] else [e.handle]
  }

  predicate CanSend(e: Entry) {
    !e.sent && e.qos in {QOS0, QOS1}
  }

  /** The handles a send loop without failures would send, in list order. */
  function Sendable(list: seq<Entry>): seq<nat> {
    if list == [] then []
    else
      var e := list[|list| - 1];
      Sendable(list[..|list| - 1]) + if CanSend(e) then [e.handle] else []
  }

  predicate Awaits(e: Entry) {
    e.sent && e.qos != QOS0
  }

  /** The number of entries an ACK could take out. */
  function Awaiting(list: seq<Entry>): nat {
    if list == [] then 0
    else Awaiting(list[..|list| - 1]) + if Awaits(list[|list| - 1]) then 1 else 0
  }

  /** The message with this handle is in the list and awaits its ACK. */
  predicate AwaitedIn(list: seq<Entry>, handle: nat) {
    exists i :: 0 <= i < |list| && list[i].handle == handle && Awaits(list[i])
  }

  /** Only QoS 0 and QoS 1 messages are ever marked sent. */
  predicate SentQos(list: seq<Entry>) {
    forall i :: 0 <= i < |list| && list[i].sent ==> list[i].qos in {QOS0, QOS1}
  }

  predicate NoneDone(list: seq<Entry>) {
    forall i :: 0 <= i < |list| ==> !Done(list[i])
  }

  /** Every accepted message is either still unsent or was handed to the wire, and exactly once;
      every copy is either still in the list or was freed, and exactly once. */
  ghost predicate Accounted(s: Pub) {
    && multiset(s.wired) + multiset(Unsent(s.list)) == multiset(UpTo(s.next))
    && multiset(s.freed) + multiset(Handles(s.list)) == multiset(UpTo(s.next))
  }

  /** Holds in every state a run reaches: at most 11 entries, no sent QoS 0 entry left behind, and as
      many unacknowledged messages as the waiting flag and the reconnects while waiting explain. */
  ghost predicate Inv(s: Pub) {
    && |s.list| <= 11
    && SentQos(s.list) && NoneDone(s.list)
    && Awaiting(s.list) == (if s.waiting then 1 else 0) + s.orphans
    && s.waiting == s.inFlight.Some?
    && (s.waiting ==> AwaitedIn(s.list, s.inFlight.value))
    && Accounted(s)
  }

  // ---------- appending and splitting ----------

  lemma {:induction false} UnsentConcat(a: seq<Entry>, b: seq<Entry>)
    ensures Unsent(a + b) == Unsent(a) + Unsent(b)
  {
    if b == [] {
      assert a + b == a;
    } else {
      assert (a + b)[..|a + b| - 1] == a + b[..|b| - 1];
      UnsentConcat(a, b[..|b| - 1]);
    }
  }

  lemma {:induction false} SendableConcat(a: seq<Entry>, b: seq<Entry>)
    ensures Sendable(a + b) == Sendable(a) + Sendable(b)
  {
    if b == [] {
      assert a + b == a;
    } else {
      assert (a + b)[..|a + b| - 1] == a + b[..|b| - 1];
      SendableConcat(a, b[..|b| - 1]);
    }
  }

  lemma {:induction false} AwaitingConcat(a: seq<Entry>, b: seq<Entry>)
    ensures Awaiting(a + b) == Awaiting(a) + Awaiting(b)
  {
    if b == [] {
      assert a + b == a;
    } else {
      assert (a + b)[..|a + b| - 1] == a + b[..|b| - 1];
      AwaitingConcat(a, b[..|b| - 1]);
    }
  }

  lemma HandlesConcat(a: seq<Entry>, b: seq<Entry>)
    ensures Handles(a + b) == Handles(a) + Handles(b)
  {}

  lemma UpToNext(n: nat)
    ensures UpTo(n + 1) == UpTo(n) + [n]
  {}

  /** Some of b goes over to a. */
  lemma MoveOver(a: seq<nat>, moved: seq<nat>, b: seq<nat>, rest: seq<nat>, all: multiset<nat>)
    requires multiset(a) + multiset(b) == all && multiset(b) == multiset(moved) + multiset(rest)
    ensures multiset(a + moved) + multiset(rest) == all
  {}

  lemma TakeOut(a: seq<nat>, h: nat, b: seq<nat>)
    ensures multiset(a + [h] + b) == multiset([h]) + multiset(a + b)
  {}

  lemma One(e: Entry)
    ensures Unsent([e]) == if e.sent then [] else [e.handle]
    ensures Awaiting([e]) == if Awaits(e) then 1 else 0
    ensures Handles([e]) == [e.handle]
  {
    assert [e][..0] == [];
  }

  lemma SendableOne(e: Entry)
    ensures Sendable([e]) == if CanSend(e) then [e.handle] else []
  {
    assert [e][..0] == [];
  }

  lemma UnsentSplit(a: seq<Entry>, e: Entry, b: seq<Entry>)
    ensures Unsent(a + [e] + b) == Unsent(a) + (if e.sent then [] else [e.handle]) + Unsent(b)
  {
    hide Unsent, Awaiting, Handles;
    UnsentConcat(a + [e], b);
    UnsentConcat(a, [e]);
    One(e);
  }

  lemma SendableSplit(a: seq<Entry>, e: Entry, b: seq<Entry>)
    ensures Sendable(a + [e] + b) == Sendable(a) + (if CanSend(e) then [e.handle] else []) + Sendable(b)
  {
    hide Sendable, CanSend;
    SendableConcat(a + [e], b);
    SendableConcat(a, [e]);
    SendableOne(e);
  }

  lemma AwaitingSplit(a: seq<Entry>, e: Entry, b: seq<Entry>)
    ensures Awaiting(a + [e] + b) == Awaiting(a) + (if Awaits(e) then 1 else 0) + Awaiting(b)
  {
    hide Unsent, Awaiting, Handles, Awaits;
    AwaitingConcat(a + [e], b);
    AwaitingConcat(a, [e]);
    One(e);
  }

  lemma HandlesSplit(a: seq<Entry>, e: Entry, b: seq<Entry>)
    ensures Handles(a + [e] + b) == Handles(a) + [e.handle] + Handles(b)
  {}

  lemma Around(list: seq<Entry>, i: nat)
    requires i < |list|
    ensures list == list[..i] + [list[i]] + list[i + 1..]
  {}

  lemma AroundUpdate(list: seq<Entry>, i: nat, e: Entry)
    requires i < |list|
    ensures list[i := e] == list[..i] + [e] + list[i + 1..]
  {}

  lemma {:induction false} AwaitingNone(list: seq<Entry>)
    ensures Awaiting(list) == 0 <==> forall i :: 0 <= i < |list| ==> !Awaits(list[i])
    ensures Awaiting(list) <= |list|
  {
    if list != [] {
      var init := list[..|list| - 1];
      AwaitingNone(init);
      if Awaiting(list) != 0 && !Awaits(list[|list| - 1]) {
        var i :| 0 <= i < |init| && Awaits(init[i]);
        assert Awaits(list[i]);
      }
    }
  }

  lemma AwaitingOnly(list: seq<Entry>, i: nat, j: nat)
    requires i < |list| && j < |list| && Awaits(list[i]) && Awaits(list[j]) && Awaiting(list) == 1
    ensures i == j
  {
    var a, b := list[..i], list[i + 1..];
    Around(list, i);
    AwaitingSplit(a, list[i], b);
    assert j < i ==> a[j] == list[j];
    assert i < j ==> b[j - i - 1] == list[j];
    AwaitingNone(a);
    AwaitingNone(b);
  }

  // ---------- what the send loop does ----------

  /** Marking an unsent entry takes its handle out of the unsent ones. */
  lemma MarkOne(list: seq<Entry>, i: nat)
    requires i < |list| && !list[i].sent
    ensures var e := list[i]; var m := list[i := e.(sent := true)];
            && multiset(Unsent(list)) == multiset{e.handle} + multiset(Unsent(m))
            && Awaiting(m) == Awaiting(list) + (if e.qos == QOS0 then 0 else 1)
            && Handles(m) == Handles(list)
  {
    hide Unsent, Awaiting;
    var a, e, b := list[..i], list[i], list[i + 1..];
    var m := list[i := e.(sent := true)];
    Around(list, i);
    AroundUpdate(list, i, e.(sent := true));
    UnsentSplit(a, e, b);
    UnsentSplit(a, e.(sent := true), b);
    AwaitingSplit(a, e, b);
    AwaitingSplit(a, e.(sent := true), b);
    assert Handles(m) == Handles(list);
  }

  /** The send loop takes handles out of the unsent ones and into the wired ones, one for one; it
      leaves one more message awaiting its ACK exactly when it stopped at a QoS 1 message. */
  lemma {:induction false} SendFromAccounts(list: seq<Entry>, i: nat, fails: seq<bool>)
    requires i <= |list|
    ensures var r := SendFrom(list, i, fails);
            && multiset(Unsent(list)) == multiset(r.wired) + multiset(Unsent(r.list))
            && Handles(r.list) == Handles(list)
            && Awaiting(r.list) == Awaiting(list) + (if r.stopped.Some? then 1 else 0)
    decreases |list| - i
  {
    hide Unsent, Awaiting, Handles;
    if i < |list| {
      var e := list[i];
      if e.sent || e.qos !in {QOS0, QOS1} || Fails(fails, i) {
        SendFromAccounts(list, i + 1, fails);
      } else {
        MarkOne(list, i);
        var m := list[i := e.(sent := true)];
        if e.qos == QOS0 {
          SendFromAccounts(m, i + 1, fails);
          var r := SendFrom(m, i + 1, fails);
          assert multiset([e.handle] + r.wired) == multiset{e.handle} + multiset(r.wired);
        } else {
          assert multiset([e.handle]) == multiset{e.handle};
        }
      }
    }
  }

  lemma {:induction false} SendFromMarks(list: seq<Entry>, i: nat, fails: seq<bool>)
    requires i <= |list| && SentQos(list)
    ensures var r := SendFrom(list, i, fails);
            SentQos(r.list) && (r.stopped.Some? ==> AwaitedIn(r.list, r.stopped.value))
    decreases |list| - i
  {
    if i < |list| {
      var e := list[i];
      var m := list[i := e.(sent := true)];
      if e.sent || e.qos !in {QOS0, QOS1} || Fails(fails, i) {
        SendFromMarks(list, i + 1, fails);
      } else if e.qos == QOS0 {
        SendFromMarks(m, i + 1, fails);
      } else {
        assert m[i].handle == e.handle && Awaits(m[i]);
      }
    }
  }

  /** When no send fails the loop sends a prefix of what can be sent, in list order. */
  lemma {:induction false} SendFromInOrder(list: seq<Entry>, i: nat, fails: seq<bool>)
    requires i <= |list| && Sendable(list[..i]) == [] && true !in fails
    ensures var r := SendFrom(list, i, fails); Sendable(list) == r.wired + Sendable(r.list)
    decreases |list| - i
  {
    hide Sendable;
    if i < |list| {
      var a, e, b := list[..i], list[i], list[i + 1..];
      var d := e.(sent := true);
      var m := list[i := d];
      Around(list, i);
      AroundUpdate(list, i, d);
      SendableSplit(a, e, b);
      SendableSplit(a, d, b);
      SendableSplit(a, e, []);
      SendableSplit(a, d, []);
      assert list[..i + 1] == a + [e] + [] && m[..i + 1] == a + [d] + [];
      assert Sendable([]) == [] by { SendableNil(); }
      if !CanSend(e) {
        SendFromInOrder(list, i + 1, fails);
      } else if e.qos == QOS0 {
        SendFromInOrder(m, i + 1, fails);
        assert Sendable(list) == [e.handle] + Sendable(m);
      } else {
        assert Sendable(list) == [e.handle] + Sendable(m);
      }
    }
  }

  lemma SendableNil()
    ensures Sendable([]) == []
  {}

  /** The messages of QoS 0 and 1 that were accepted are those on the wire and then those still to be
      sent, in order of acceptance. */
  ghost predicate InOrder(s: Pub) {
    s.wired + Sendable(s.list) == s.order
  }

  // ---------- what compaction does ----------

  lemma KeepNil()
    ensures Keep([]) == [] && Drop([]) == []
  {}

  lemma KeepLast(list: seq<Entry>, e: Entry)
    ensures Keep(list + [e]) == Keep(list) + if Done(e) then [] else [e]
    ensures Drop(list + [e]) == Drop(list) + if Done(e) then [e.handle] else []
  {
    assert (list + [e])[..|list|] == list;
  }

  lemma {:induction false} KeepHandles(list: seq<Entry>)
    ensures multiset(Handles(list)) == multiset(Drop(list)) + multiset(Handles(Keep(list)))
    ensures |Keep(list)| <= |list|
  {
    hide Handles, Keep, Drop;
    if list == [] {
      KeepNil();
      HandlesNil();
    } else {
      var init, e := list[..|list| - 1], list[|list| - 1];
      assert list == init + [e];
      KeepHandles(init);
      KeepLast(init, e);
      HandlesConcat(init, [e]);
      One(e);
      assert multiset(Handles(list)) == multiset(Handles(init)) + multiset([e.handle]);
      if Done(e) {
        assert multiset(Drop(list)) == multiset(Drop(init)) + multiset([e.handle]);
        assert Keep(list) == Keep(init);
      } else {
        HandlesConcat(Keep(init), [e]);
        assert multiset(Handles(Keep(list))) == multiset(Handles(Keep(init))) + multiset([e.handle]);
        assert Drop(list) == Drop(init);
      }
    }
  }

  lemma {:induction false} KeepUnsent(list: seq<Entry>)
    ensures Unsent(Keep(list)) == Unsent(list)
  {
    hide Handles, Awaiting;
    if list != [] {
      var init, e := list[..|list| - 1], list[|list| - 1];
      KeepUnsent(init);
      if Done(e) {
        assert Keep(list) == Keep(init);
      } else {
        UnsentConcat(Keep(init), [e]);
        One(e);
      }
    }
  }

  lemma {:induction false} KeepAwaiting(list: seq<Entry>)
    ensures Awaiting(Keep(list)) == Awaiting(list)
  {
    hide Handles, Unsent;
    if list != [] {
      var init, e := list[..|list| - 1], list[|list| - 1];
      KeepAwaiting(init);
      if Done(e) {
        assert Keep(list) == Keep(init);
      } else {
        AwaitingConcat(Keep(init), [e]);
        One(e);
      }
    }
  }

  lemma HandlesNil()
    ensures Handles([]) == []
  {}

  /** Compaction frees exactly the sent QoS 0 entries and keeps the order of the others. */
  lemma {:induction false} KeepAccounts(list: seq<Entry>)
    ensures multiset(Handles(list)) == multiset(Drop(list)) + multiset(Handles(Keep(list)))
    ensures Unsent(Keep(list)) == Unsent(list)
    ensures Awaiting(Keep(list)) == Awaiting(list)
    ensures |Keep(list)| <= |list|
  {
    hide *;
    KeepHandles(list);
    KeepUnsent(list);
    KeepAwaiting(list);
  }

  lemma {:induction false} KeepSendable(list: seq<Entry>)
    ensures Sendable(Keep(list)) == Sendable(list)
  {
    if list != [] {
      var init, e := list[..|list| - 1], list[|list| - 1];
      KeepSendable(init);
      if Done(e) {
        assert Keep(list) == Keep(init);
      } else {
        SendableConcat(Keep(init), [e]);
        SendableOne(e);
      }
    }
  }

  lemma {:induction false} KeepMembers(list: seq<Entry>)
    ensures NoneDone(Keep(list))
    ensures forall e :: e in Keep(list) <==> e in list && !Done(e)
  {
    if list != [] {
      KeepMembers(list[..|list| - 1]);
      assert list == list[..|list| - 1] + [list[|list| - 1]];
    }
  }

  lemma {:induction false} KeepAll(list: seq<Entry>)
    requires NoneDone(list)
    ensures Keep(list) == list && Drop(list) == []
  {
    if list != [] {
      KeepAll(list[..|list| - 1]);
    }
  }

  // ---------- every callback keeps the invariant ----------

  lemma OneMore(a: seq<nat>, b: seq<nat>, n: nat)
    requires multiset(a) + multiset(b) == multiset(UpTo(n))
    ensures multiset(a) + multiset(b + [n]) == multiset(UpTo(n + 1))
  {
    hide UpTo;
    UpToNext(n);
  }

  lemma PublishAccounts(s: Pub, qos: int)
    requires Inv(s) && Accepts(s)
    ensures Accounted(Publish(s, qos)) && Awaiting(Publish(s, qos).list) == Awaiting(s.list)
  {
    hide Unsent, Awaiting, Handles, UpTo, SentQos, NoneDone;
    var e := Entry(s.next, qos, false);
    UnsentConcat(s.list, [e]);
    AwaitingConcat(s.list, [e]);
    HandlesConcat(s.list, [e]);
    One(e);
    OneMore(s.wired, Unsent(s.list), s.next);
    OneMore(s.freed, Handles(s.list), s.next);
  }

  lemma AwaitedStays(list: seq<Entry>, e: Entry, handle: nat)
    requires AwaitedIn(list, handle)
    ensures AwaitedIn(list + [e], handle)
  {
    var i :| 0 <= i < |list| && list[i].handle == handle && Awaits(list[i]);
    assert (list + [e])[i] == list[i];
  }

  lemma PublishKeeps(s: Pub, qos: int)
    requires Inv(s)
    ensures Inv(Publish(s, qos))
  {
    hide Accounted, Awaiting, AwaitedIn;
    if Accepts(s) {
      PublishAccounts(s, qos);
      if s.waiting {
        AwaitedStays(s.list, Entry(s.next, qos, false), s.inFlight.value);
      }
    }
  }

  lemma WriteableAccounts(s: Pub, fails: seq<bool>)
    requires Inv(s) && !s.waiting
    ensures var t := Writeable(s, fails);
            && Accounted(t) && |t.list| <= 11
            && Awaiting(t.list) == (if t.waiting then 1 else 0) + t.orphans
  {
    hide Unsent, Awaiting, Handles, UpTo, SentQos, NoneDone, SendFrom, Keep, Drop;
    var r := SendFrom(s.list, 0, fails);
    SendFromAccounts(s.list, 0, fails);
    KeepAccounts(r.list);
    MoveOver(s.wired, r.wired, Unsent(s.list), Unsent(Keep(r.list)), multiset(UpTo(s.next)));
    MoveOver(s.freed, Drop(r.list), Handles(s.list), Handles(Keep(r.list)), multiset(UpTo(s.next)));
  }

  lemma WriteableMarks(s: Pub, fails: seq<bool>)
    requires SentQos(s.list)
    ensures var t := Writeable(s, fails);
            !s.waiting ==>
              && SentQos(t.list) && NoneDone(t.list)
              && (t.waiting ==> AwaitedIn(t.list, t.inFlight.value))
  {
    var list := SendFrom(s.list, 0, fails).list;
    var kept := Keep(list);
    SendFromMarks(s.list, 0, fails);
    KeepMembers(list);
    assert forall i :: 0 <= i < |kept| ==> kept[i] in list;
    if !s.waiting && Writeable(s, fails).waiting {
      var h := Writeable(s, fails).inFlight.value;
      var i :| 0 <= i < |list| && list[i].handle == h && Awaits(list[i]);
      assert list[i] in kept;
    }
  }

  lemma WriteableKeeps(s: Pub, fails: seq<bool>)
    requires Inv(s)
    ensures Inv(Writeable(s, fails))
  {
    hide Unsent, Awaiting, Handles, Accounted, SentQos, NoneDone, AwaitedIn, SendFrom, Keep, Drop;
    if !s.waiting {
      WriteableAccounts(s, fails);
      WriteableMarks(s, fails);
    }
  }

  lemma AckAccounts(s: Pub, k: nat)
    requires Inv(s) && k < |s.list| && Awaits(s.list[k])
    ensures var rest := s.list[..k] + s.list[k + 1..];
            && Accounted(s.(list := rest, freed := s.freed + [s.list[k].handle]))
            && Awaiting(rest) + 1 == Awaiting(s.list)
  {
    hide Unsent, Awaiting, Handles, UpTo, SentQos, NoneDone;
    var a, e, b := s.list[..k], s.list[k], s.list[k + 1..];
    Around(s.list, k);
    UnsentSplit(a, e, b);
    AwaitingSplit(a, e, b);
    HandlesSplit(a, e, b);
    UnsentConcat(a, b);
    AwaitingConcat(a, b);
    HandlesConcat(a, b);
    TakeOut(Handles(a), e.handle, Handles(b));
    MoveOver(s.freed, [e.handle], Handles(s.list), Handles(a + b), multiset(UpTo(s.next)));
  }

  lemma AckKeeps(s: Pub)
    requires Inv(s)
    ensures Inv(Ack(s))
  {
    hide Accounted, Awaiting;
    if s.waiting {
      AwaitingNone(s.list);
      AckAccounts(s, AckIndex(s.list, 0));
      AccountedOf(s.(list := Ack(s).list, freed := Ack(s).freed), Ack(s));
    }
  }

  /** The accounting does not look at the flags. */
  lemma AccountedOf(s: Pub, t: Pub)
    requires Accounted(s) && t.wired == s.wired && t.freed == s.freed && t.list == s.list && t.next == s.next
    ensures Accounted(t)
  {}

  lemma EstablishedKeeps(s: Pub)
    requires Inv(s)
    ensures Inv(Established(s))
  {}

  lemma PublishInOrder(s: Pub, qos: int)
    requires InOrder(s)
    ensures InOrder(Publish(s, qos))
  {
    hide Sendable;
    var e := Entry(s.next, qos, false);
    SendableConcat(s.list, [e]);
    SendableOne(e);
  }

  lemma WriteableInOrder(s: Pub, fails: seq<bool>)
    requires InOrder(s) && true !in fails
    ensures InOrder(Writeable(s, fails))
  {
    hide Sendable;
    assert Sendable(s.list[..0]) == [] by { SendableNil(); }
    SendFromInOrder(s.list, 0, fails);
    KeepSendable(SendFrom(s.list, 0, fails).list);
  }

  /** An ACK takes out a sent message, so the order is untouched; this needs no invariant. */
  lemma AckInOrder(s: Pub)
    requires InOrder(s)
    ensures InOrder(Ack(s))
  {
    hide Sendable;
    var k := AckIndex(s.list, 0);
    if s.waiting && k < |s.list| {
      Around(s.list, k);
      SendableSplit(s.list[..k], s.list[k], s.list[k + 1..]);
      SendableConcat(s.list[..k], s.list[k + 1..]);
    }
  }

  // ---------- what the invariant means ----------

  lemma {:induction false} UpToCounts(n: nat, h: nat)
    ensures multiset(UpTo(n))[h] == if h < n then 1 else 0
  {
    if n > 0 {
      UpToCounts(n - 1, h);
      UpToNext(n - 1);
    }
  }

  lemma CountTwo(s: seq<nat>, i: nat, j: nat)
    requires i < j < |s| && s[i] == s[j]
    ensures multiset(s)[s[i]] >= 2
  {
    assert s == s[..j] + s[j..];
    assert s[i] in s[..j] && s[j] in s[j..];
    assert s[..j][i] == s[i] && s[j..][0] == s[j];
  }

  /** a and b together hold every number below n once. */
  lemma OnceEach(a: seq<nat>, b: seq<nat>, n: nat)
    requires multiset(a) + multiset(b) == multiset(UpTo(n))
    ensures forall i, j :: 0 <= i < j < |a| ==> a[i] != a[j]
    ensures forall h: nat :: h < n <==> (h in a || h in b)
    ensures forall h: nat :: !(h in a && h in b)
  {
    hide UpTo;
    forall h: nat ensures multiset(a)[h] + multiset(b)[h] == if h < n then 1 else 0 {
      UpToCounts(n, h);
      assert (multiset(a) + multiset(b))[h] == multiset(a)[h] + multiset(b)[h];
    }
    forall h: nat
      ensures h < n <==> (h in a || h in b)
      ensures !(h in a && h in b)
    {
      assert h in a <==> multiset(a)[h] > 0;
      assert h in b <==> multiset(b)[h] > 0;
    }
    forall i, j | 0 <= i < j < |a| ensures a[i] != a[j] {
      if a[i] == a[j] {
        CountTwo(a, i, j);
      }
    }
  }

  /** No message goes to the wire twice, none that is still unsent has been on the wire, and only
      accepted messages were sent; the same for freeing. */
  lemma OnceOnly(s: Pub)
    requires Inv(s)
    ensures forall i, j :: 0 <= i < j < |s.wired| ==> s.wired[i] != s.wired[j]
    ensures forall h: nat :: h < s.next <==> (h in s.wired || h in Unsent(s.list))
    ensures forall h: nat :: !(h in s.wired && h in Unsent(s.list))
    ensures forall i, j :: 0 <= i < j < |s.freed| ==> s.freed[i] != s.freed[j]
    ensures forall h: nat :: h < s.next <==> (h in s.freed || h in Handles(s.list))
    ensures forall h: nat :: !(h in s.freed && h in Handles(s.list))
  {
    hide Unsent, Handles, Awaiting;
    OnceEach(s.wired, Unsent(s.list), s.next);
    OnceEach(s.freed, Handles(s.list), s.next);
  }

  /** After iot_mqtt_deinit every accepted copy has been freed, and exactly once. */
  lemma DeinitFreesAll(s: Pub)
    requires Inv(s)
    ensures multiset(Deinit(s).freed) == multiset(UpTo(s.next)) && Deinit(s).list == []
  {}

  /** An ACK while waiting takes out and frees the first awaiting entry, keeping the order of the
      rest; without a reconnect while waiting, that is the message in flight. */
  lemma AckTakesFirst(s: Pub)
    requires Inv(s) && s.waiting
    ensures var k := AckIndex(s.list, 0);
            && k < |s.list| && Awaits(s.list[k]) && (forall j :: 0 <= j < k ==> !Awaits(s.list[j]))
            && Ack(s).list == s.list[..k] + s.list[k + 1..]
            && Ack(s).freed == s.freed + [s.list[k].handle]
            && !Ack(s).waiting
            && (s.orphans == 0 ==> s.list[k].handle == s.inFlight.value)
  {
    AwaitingNone(s.list);
    var k := AckIndex(s.list, 0);
    if s.orphans == 0 {
      var i :| 0 <= i < |s.list| && s.list[i].handle == s.inFlight.value && Awaits(s.list[i]);
      AwaitingOnly(s.list, i, k);
    }
  }

  /** Exactly when the ACK takes out the message the waiting flag is about: when no message that was
      sent before a reconnect stands before it in the list. */
  lemma AckMatches(s: Pub, i: nat)
    requires Inv(s) && s.waiting
    requires i < |s.list| && s.list[i].handle == s.inFlight.value && Awaits(s.list[i])
    ensures Ack(s).freed == s.freed + [s.inFlight.value] <==> forall j :: 0 <= j < i ==> !Awaits(s.list[j])
  {
    hide Unsent, Awaiting, UpTo;
    AckTakesFirst(s);
    var k := AckIndex(s.list, 0);
    OnceEach(Handles(s.list), s.freed, s.next);
    assert Handles(s.list)[k] == s.list[k].handle && Handles(s.list)[i] == s.list[i].handle;
    assert Ack(s).freed[|s.freed|] == s.list[k].handle;
  }

  /** Without a reconnect while waiting at most one message is in flight. */
  lemma OneInFlight(s: Pub, i: nat, j: nat)
    requires Inv(s) && s.orphans == 0
    requires i < |s.list| && j < |s.list| && s.list[i].sent && s.list[j].sent
    ensures i == j && s.waiting && s.list[i].handle == s.inFlight.value
  {
    AwaitingNone(s.list);
    assert Awaits(s.list[i]) && Awaits(s.list[j]);
    AwaitingOnly(s.list, i, j);
    var k :| 0 <= k < |s.list| && s.list[k].handle == s.inFlight.value && Awaits(s.list[k]);
    AwaitingOnly(s.list, i, k);
  }

  lemma {:induction false} AwaitingAll(list: seq<Entry>)
    requires Awaiting(list) == |list|
    ensures forall i :: 0 <= i < |list| ==> Awaits(list[i])
  {
    if list != [] {
      var init := list[..|list| - 1];
      AwaitingNone(init);
      AwaitingAll(init);
    }
  }

  lemma {:induction false} SendableNone(list: seq<Entry>)
    ensures Sendable(list) == [] <==> forall i :: 0 <= i < |list| ==> !CanSend(list[i])
  {
    if list != [] {
      var init := list[..|list| - 1];
      SendableNone(init);
      if CanSend(list[|list| - 1]) {
        assert Sendable(list)[|Sendable(list)| - 1] == list[|list| - 1].handle;
      } else {
        assert Sendable(list) == Sendable(init);
      }
    }
  }

  lemma {:induction false} NothingToSend(list: seq<Entry>, i: nat, fails: seq<bool>)
    requires i <= |list| && forall j :: i <= j < |list| ==> !CanSend(list[j])
    ensures SendFrom(list, i, fails) == Sending(list, [], None)
    decreases |list| - i
  {
    if i < |list| {
      NothingToSend(list, i + 1, fails);
    }
  }

  lemma {:induction false} SomethingSent(list: seq<Entry>, i: nat, j: nat)
    requires i <= j < |list| && CanSend(list[j])
    ensures SendFrom(list, i, []).wired != []
    decreases |list| - i
  {
    if !CanSend(list[i]) {
      SomethingSent(list, i + 1, j);
    }
  }

  /** No call and no callback changes the queue. */
  ghost predicate Frozen(s: Pub) {
    && (forall qos :: Publish(s, qos) == s)
    && (forall fails :: Writeable(s, fails) == s)
    && Ack(s) == s && Established(s) == s
  }

  lemma FullIsFrozen(s: Pub)
    requires Inv(s) && !s.waiting && |s.list| == 11 && Sendable(s.list) == []
    ensures Frozen(s)
  {
    hide Awaiting, Unsent, Handles, Sendable, SendFrom, Accounted;
    SendableNone(s.list);
    KeepAll(s.list);
    forall fails ensures Writeable(s, fails) == s {
      NothingToSend(s.list, 0, fails);
    }
  }

  lemma FrozenIsFull(s: Pub)
    requires Frozen(s) && |s.list| <= 11
    ensures !s.waiting && |s.list| == 11 && Sendable(s.list) == []
  {
    hide Sendable, SendFrom, Keep, Drop;
    SendableNone(s.list);
    assert Accepts(s) ==> Publish(s, QOS0).next == s.next + 1;
    assert !s.waiting ==> Writeable(s, []).wired == s.wired + SendFrom(s.list, 0, []).wired;
    if i :| 0 <= i < |s.list| && CanSend(s.list[i]) {
      SomethingSent(s.list, 0, i);
    }
  }

  /** The queue is frozen exactly when no PUBACK is due and the list is full of messages the loop does
      not send: sent ones that lost their wait, and ones that are neither QoS 0 nor QoS 1. */
  lemma FrozenExactly(s: Pub)
    requires Inv(s)
    ensures Frozen(s) <==> !s.waiting && |s.list| == 11 && Sendable(s.list) == []
  {
    hide Frozen, Sendable, Accounted, Awaiting;
    if Frozen(s) {
      FrozenIsFull(s);
    }
    if !s.waiting && |s.list| == 11 && Sendable(s.list) == [] {
      FullIsFrozen(s);
    }
  }

  /** Each reconnect while waiting costs a place in the list for good: there are at most 11 of them,
      and the eleventh freezes the queue. */
  lemma OrphansFill(s: Pub)
    requires Inv(s)
    ensures s.orphans <= |s.list| <= 11
    ensures s.orphans == 11 ==> Frozen(s)
  {
    hide Awaiting, Unsent, Handles, Sendable, Frozen;
    AwaitingNone(s.list);
    if s.orphans == 11 {
      AwaitingAll(s.list);
      SendableNone(s.list);
      FrozenExactly(s);
    }
  }
}
