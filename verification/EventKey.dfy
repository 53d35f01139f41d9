/**
 * Eventing at the control point: the subscription of a service, the event key
 * that notices lost notifications, and the state table they update.
 */
module EventKey {
  import opened Text
  import opened DeviceTree

  const EVENT_MAX_SEQ := 2147483647
  /** The largest notify count of this library's own device side. */
  const NOTIFY_COUNT_MAX := 0xFFFF_FFFF
  /** `size_t` has 64 bits. */
  const TWO_TO_THE_64 := 0x1_0000_0000_0000_0000

  datatype Variable = Variable(name: string, value: string)

  datatype Property = Property(name: CString, value: CString)

  /** The answer to a SUBSCRIBE request: `None` if it was not successful. */
  type Grant = Option<(CString, int)>

  /** What the control point keeps about a service it is subscribed to. */
  datatype Client = Client(sub: Subscription, table: seq<Variable>)

  /** A NOTIFY request, and what the network and the clock would say if it made the control point subscribe again. */
  datatype Notify = Notify(sid: string, seqNumber: nat, properties: seq<Property>, grant: Grant, now: int)

  // ---------------------------------------------------------------------
  // The operations as functions
  // ---------------------------------------------------------------------

  /** `mupnp_string_setvalue`: NULL leaves the old value. */
  function SetValue(before: string, value: CString): string {
    if value.Some? then value.value else before
  }

  function Granted(sub: Subscription, grant: Grant, now: int): Subscription {
    if grant.Some? then sub.(sid := SetValue(sub.sid, grant.value.0), timeout := grant.value.1, timestamp := now)
    else sub.(sid := "")
  }

  /** `mupnp_controlpoint_subscribe`: a renewal keeps the event key, a new subscription clears it first. */
  function Subscribe(sub: Subscription, grant: Grant, now: int): Subscription {
    if IsSubscribed(sub) then Granted(sub, grant, now) else Granted(sub.(eventKey := 0), grant, now)
  }

  /** `mupnp_controlpoint_unsubscribe` */
  function Unsubscribe(sub: Subscription): Subscription {
    sub.(sid := "", timeout := 0, timestamp := 0)
  }

  predicate InSequence(eventKey: int, seqNumber: nat) {
    seqNumber == 0 || seqNumber == (eventKey + 1) % TWO_TO_THE_64
  }

  function NextKey(seqNumber: nat): nat {
    if seqNumber == EVENT_MAX_SEQ then 0 else seqNumber
  }

  predicate IsFor(sub: Subscription, n: Notify) {
    IsSubscribed(sub) && n.sid == sub.sid
  }

  predicate Accepts(c: Client, n: Notify) {
    IsFor(c.sub, n) && InSequence(c.sub.eventKey, n.seqNumber)
  }

  /** `mupnp_controlpoint_updatestatetablefromproperty` */
  function UpdateTable(table: seq<Variable>, p: Property): (r: seq<Variable>)
    ensures |r| == |table|
  {
    if table == [] || IsBlank(p.name) then table
    else if table[0].name == p.name.value then [table[0].(value := SetValue(table[0].value, p.value))] + table[1..]
    else [table[0]] + UpdateTable(table[1..], p)
  }

  /** The first variable with the name is the one that takes the value. */
  lemma {:induction false} UpdatedAt(table: seq<Variable>, p: Property, i: nat)
    requires i < |table| && p.name == Some(table[i].name) && !IsBlank(p.name)
    requires forall j | 0 <= j < i :: Some(table[j].name) != p.name
    ensures UpdateTable(table, p) == table[i := table[i].(value := SetValue(table[i].value, p.value))]
  {
    if i > 0 {
      UpdatedAt(table[1..], p, i - 1);
    }
  }

  lemma {:induction false} NothingUpdated(table: seq<Variable>, p: Property)
    requires forall j | 0 <= j < |table| :: Some(table[j].name) != p.name
    ensures UpdateTable(table, p) == table
  {
    if table != [] {
      NothingUpdated(table[1..], p);
    }
  }

  function UpdateAll(table: seq<Variable>, ps: seq<Property>): (r: seq<Variable>)
    ensures |r| == |table|
    decreases ps
  {
    if ps == [] then table else UpdateAll(UpdateTable(table, ps[0]), ps[1..])
  }

  /** The NOTIFY branch of `mupnp_controlpoint_httprequestreceived`, for one service. */
  function Receive(c: Client, n: Notify): Client {
    if !IsFor(c.sub, n) then c
    else if !InSequence(c.sub.eventKey, n.seqNumber) then c.(sub := Subscribe(Unsubscribe(c.sub), n.grant, n.now))
    else Client(c.sub.(eventKey := NextKey(n.seqNumber)), UpdateAll(c.table, n.properties))
  }

  // ---------------------------------------------------------------------
  // The operations on the service object
  // ---------------------------------------------------------------------

  class ClientService {
    var sid: string
    var timeout: int
    var timestamp: int
    var eventKey: int
    var stateTable: seq<Variable>

    constructor (table: seq<Variable>)
      ensures Value() == Client(Subscription("", 0, 0, 0), table)
    {
      sid, timeout, timestamp, eventKey, stateTable := "", 0, 0, 0, table;
    }

    function Sub(): Subscription
      reads this
    {
      Subscription(sid, timeout, timestamp, eventKey)
    }

    function Value(): Client
      reads this
    {
      Client(Sub(), stateTable)
    }

    /** `mupnp_controlpoint_resubscribe`; `hasRootDevice` is whether the service leads to a root device. */
    method RenewSubscription(hasRootDevice: bool, grant: Grant, now: int) returns (isSuccess: bool)
      modifies this`sid, this`timeout, this`timestamp
      ensures isSuccess <==> old(IsSubscribed(Sub())) && hasRootDevice && grant.Some?
      ensures Sub() == if old(IsSubscribed(Sub())) && hasRootDevice then Granted(old(Sub()), grant, now) else old(Sub())
    {
      if sid == "" {
        return false;
      }
      if !hasRootDevice {
        return false;
      }
      isSuccess := grant.Some?;
      if isSuccess {
        if grant.value.0.Some? {
          sid := grant.value.0.value;
        }
        timeout := grant.value.1;
        timestamp := now;
      } else {
        sid := "";
      }
    }

    /** `mupnp_controlpoint_subscribe` */
    method SubscribeTo(hasRootDevice: bool, grant: Grant, now: int) returns (isSuccess: bool)
      modifies this`sid, this`timeout, this`timestamp, this`eventKey
      ensures isSuccess <==> hasRootDevice && grant.Some?
      ensures Sub() == if hasRootDevice then Subscribe(old(Sub()), grant, now) else old(Sub())
    {
      if sid != "" {
        isSuccess := RenewSubscription(hasRootDevice, grant, now);
        return;
      }
      if !hasRootDevice {
        return false;
      }
      eventKey := 0;
      isSuccess := grant.Some?;
      if isSuccess {
        if grant.value.0.Some? {
          sid := grant.value.0.value;
        }
        timeout := grant.value.1;
        timestamp := now;
      } else {
        sid := "";
      }
    }

    /** `mupnp_controlpoint_unsubscribe`; the answer of the device makes no difference here. */
    method UnsubscribeFrom(hasRootDevice: bool)
      modifies this`sid, this`timeout, this`timestamp
      ensures Sub() == if hasRootDevice then Unsubscribe(old(Sub())) else old(Sub())
    {
      if !hasRootDevice {
        return;
      }
      sid := "";
      timeout := 0;
      timestamp := 0;
    }

    method UpdateStateTable(p: Property)
      modifies this`stateTable
      ensures stateTable == UpdateTable(old(stateTable), p)
    {
      if IsBlank(p.name) {
        return;
      }
      hide UpdateTable;
      ghost var table := stateTable;
      var i := 0;
      while i < |stateTable|
        invariant 0 <= i <= |stateTable| && stateTable == table
        invariant forall j | 0 <= j < i :: table[j].name != p.name.value
      {
        if stateTable[i].name == p.name.value {
          UpdatedAt(table, p, i);
          if p.value.Some? {
            stateTable := stateTable[i := stateTable[i].(value := p.value.value)];
          }
          return;
        }
        i := i + 1;
      }
      NothingUpdated(table, p);
    }

    /**
     * The NOTIFY branch of `mupnp_controlpoint_httprequestreceived` for a service of a cached device, which
     * has a root device; whether listeners are told.
     */
    method ReceiveNotify(n: Notify) returns (notifyListeners: bool)
      modifies this
      ensures Value() == Receive(old(Value()), n)
      ensures notifyListeners <==> Accepts(old(Value()), n)
    {
      notifyListeners := false;
      if n.sid == "" || n.sid != sid {
        return;
      }
      if n.seqNumber != 0 && n.seqNumber != (eventKey + 1) % TWO_TO_THE_64 {
        UnsubscribeFrom(true);
        var _ := SubscribeTo(true, n.grant, n.now);
      } else {
        var seqNumber := n.seqNumber;
        if seqNumber == EVENT_MAX_SEQ {
          seqNumber := 0;
        }
        eventKey := seqNumber;
        notifyListeners := true;
        var i := 0;
        assert n.properties[0..] == n.properties;
        while i < |n.properties|
          invariant 0 <= i <= |n.properties|
          invariant Sub() == old(Sub()).(eventKey := NextKey(n.seqNumber))
          invariant UpdateAll(stateTable, n.properties[i..]) == UpdateAll(old(stateTable), n.properties)
        {
          assert n.properties[i..][1..] == n.properties[i + 1..];
          UpdateStateTable(n.properties[i]);
          i := i + 1;
        }
      }
    }
  }

  // ---------------------------------------------------------------------
  // What the operations leave
  // ---------------------------------------------------------------------

  /**
   * A subscribe request keeps the event key of a live subscription and clears
   * that of a new one. A grant gives the timeout and dates it; a SID that it
   * does not name stays. Without a grant only the SID is cleared. An
   * unsubscription clears everything but the key.
   */
  lemma SubscribeOutcome(sub: Subscription, grant: Grant, now: int)
    ensures var after := Subscribe(sub, grant, now);
            && after.eventKey == (if sub.sid == "" then 0 else sub.eventKey)
            && (grant.None? ==> after.sid == "" && after.timeout == sub.timeout && after.timestamp == sub.timestamp)
            && (grant.Some? ==>
                  && after.sid == (if grant.value.0.Some? then grant.value.0.value else sub.sid)
                  && after.timeout == grant.value.1 && after.timestamp == now)
    ensures Unsubscribe(sub) == Subscription("", 0, 0, sub.eventKey)
  {
  }

  /** The number is 0, or one more than the key in 64 bits. */
  predicate Follows(eventKey: int, seqNumber: nat) {
    seqNumber == 0 || seqNumber == (eventKey + 1) % 0x1_0000_0000_0000_0000
  }

  /**
   * The three ways of a notification. One for another SID changes nothing. One
   * in sequence sets the key, to 0 at the largest number, and the table. Any
   * other one ends in a new subscription: key 0, and SID, timeout and
   * timestamp those of the grant, or none at all.
   */
  lemma NotifyOutcome(c: Client, n: Notify)
    ensures var c' := Receive(c, n);
            if c.sub.sid == "" || n.sid != c.sub.sid then c' == c
            else if Follows(c.sub.eventKey, n.seqNumber) then
              && c'.sub == c.sub.(eventKey := if n.seqNumber == 0x7FFF_FFFF then 0 else n.seqNumber)
              && c'.table == UpdateAll(c.table, n.properties)
            else
              && c'.table == c.table
              && c'.sub == match n.grant
                           case None => Subscription("", 0, 0, 0)
                           case Some((sid, timeout)) => Subscription(OrEmpty(sid), timeout, n.now, 0)
  {
    hide UpdateAll;
  }

  // ---------------------------------------------------------------------
  // Numbering
  // ---------------------------------------------------------------------

  /** The number of message `n` of a publisher that goes 0, 1, ..., wrap, 1, 2, ... */
  function Number(wrap: nat, n: nat): nat
    requires wrap > 0
  {
    if n == 0 then 0 else (n - 1) % wrap + 1
  }

  /** The event key after messages 0 to n arrived in order; `None` once one of them was out of sequence. */
  function KeyAfter(wrap: nat, n: nat): Option<nat>
    requires wrap > 0
  {
    if n == 0 then Some(NextKey(0))
    else
      match KeyAfter(wrap, n - 1)
      case None => None
      case Some(key) => if InSequence(key, Number(wrap, n)) then Some(NextKey(Number(wrap, n))) else None
  }

  function Min(a: nat, b: nat): nat {
    if a < b then a else b
  }

  lemma {:induction false} KeyWithinFirstCycle(wrap: nat, n: nat)
    requires 0 < wrap && n <= Min(wrap, EVENT_MAX_SEQ)
    ensures KeyAfter(wrap, n) == Some(NextKey(n))
  {
    if n > 0 {
      KeyWithinFirstCycle(wrap, n - 1);
      assert Number(wrap, n) == n by { SmallMod(n - 1, wrap); }
      assert NextKey(n - 1) == n - 1;
      assert InSequence(n - 1, n) by { SmallMod(n, TWO_TO_THE_64); }
      hide Number, InSequence;
    }
  }

  lemma SmallMod(a: nat, m: nat)
    requires a < m
    ensures a % m == a
  {
  }

  lemma {:induction false} KeyOfMatchingWrap(n: nat)
    ensures KeyAfter(EVENT_MAX_SEQ, n) == Some(NextKey(Number(EVENT_MAX_SEQ, n)))
  {
    if n > 0 {
      hide Number, InSequence;
      KeyOfMatchingWrap(n - 1);
      NumberStep(n);
      var key := NextKey(Number(EVENT_MAX_SEQ, n - 1));
      FollowsInSequence(key);
    }
  }

  /** One number follows another, and 1 follows the largest. */
  lemma NumberStep(n: nat)
    requires 0 < n
    ensures Number(EVENT_MAX_SEQ, n - 1) <= EVENT_MAX_SEQ
    ensures Number(EVENT_MAX_SEQ, n) == NextKey(Number(EVENT_MAX_SEQ, n - 1)) + 1
  {
  }

  lemma FollowsInSequence(key: nat)
    requires key < EVENT_MAX_SEQ
    ensures InSequence(key, key + 1)
  {
    SmallMod(key + 1, TWO_TO_THE_64);
  }

  lemma {:induction false} RejectionIsFinal(wrap: nat, m: nat, n: nat)
    requires wrap > 0 && m <= n && KeyAfter(wrap, m).None?
    ensures KeyAfter(wrap, n).None?
  {
    if m < n {
      RejectionIsFinal(wrap, m, n - 1);
    }
  }

  lemma FirstRejection(wrap: nat)
    requires wrap > 0 && wrap != EVENT_MAX_SEQ
    ensures KeyAfter(wrap, Min(wrap, EVENT_MAX_SEQ) + 1).None?
  {
    var last := Min(wrap, EVENT_MAX_SEQ);
    KeyWithinFirstCycle(wrap, last);
    if wrap < EVENT_MAX_SEQ {
      assert wrap % wrap == 0;
    } else {
      SmallMod(last, wrap);
    }
  }

  /**
   * With in-order delivery from message 0 on, a publisher that wraps after
   * `wrap` never makes the control point subscribe again, however long it
   * runs, if and only if it wraps where the control point expects; any other
   * one does so at the first message that follows the smaller of the two.
   */
  lemma InSequenceIff(wrap: nat, n: nat)
    requires wrap > 0
    ensures KeyAfter(wrap, n).Some? <==> wrap == 0x7FFF_FFFF || n <= Min(wrap, 0x7FFF_FFFF)
  {
    if wrap == EVENT_MAX_SEQ {
      KeyOfMatchingWrap(n);
    } else if n <= Min(wrap, EVENT_MAX_SEQ) {
      KeyWithinFirstCycle(wrap, n);
    } else {
      FirstRejection(wrap);
      RejectionIsFinal(wrap, Min(wrap, EVENT_MAX_SEQ) + 1, n);
    }
  }

  /** `mupnp_subscriber_incrementnotifycount`, the numbering of this library's own device side. */
  function IncrementNotifyCount(notifyCount: nat): nat {
    (if NOTIFY_COUNT_MAX <= notifyCount then 0 else notifyCount) + 1
  }

  function NotifyCount(n: nat): nat {
    if n == 0 then 0 else IncrementNotifyCount(NotifyCount(n - 1))
  }

  lemma {:induction false} NotifyCountIsNumber(n: nat)
    ensures NotifyCount(n) == Number(NOTIFY_COUNT_MAX, n)
  {
    if n > 0 {
      NotifyCountIsNumber(n - 1);
    }
  }

  /**
   * The two sides of this library disagree: its device numbers on to 2^32 - 1,
   * its control point expects 1 after 2^31 - 1. The message after that one
   * makes the control point unsubscribe and subscribe again.
   */
  lemma OwnPublisherIsInSequenceIff(n: nat)
    ensures NotifyCount(n) == Number(0xFFFF_FFFF, n)
    ensures KeyAfter(0xFFFF_FFFF, n).Some? <==> n <= 0x7FFF_FFFF
  {
    NotifyCountIsNumber(n);
    InSequenceIff(NOTIFY_COUNT_MAX, n);
  }

  // ---------------------------------------------------------------------
  // Losses
  // ---------------------------------------------------------------------

  lemma SameRemainderIff(a: nat, k: nat)
    ensures (a + k) % EVENT_MAX_SEQ == a % EVENT_MAX_SEQ <==> k % EVENT_MAX_SEQ == 0
  {
    var m := EVENT_MAX_SEQ;
    assert a == a / m * m + a % m && k == k / m * m + k % m && a + k == (a + k) / m * m + (a + k) % m;
  }

  /**
   * Once message 0 has been accepted, losing the next `lost` messages is
   * noticed at the message after them, unless the loss is whole cycles.
   */
  lemma LossDetectedIff(n: nat, lost: nat)
    ensures KeyAfter(EVENT_MAX_SEQ, n).Some?
    ensures InSequence(KeyAfter(EVENT_MAX_SEQ, n).value, Number(EVENT_MAX_SEQ, n + 1 + lost))
       <==> lost % EVENT_MAX_SEQ == 0
  {
    KeyOfMatchingWrap(n);
    KeyOfMatchingWrap(n + 1);
    SameRemainderIff(n, lost);
  }

  /** Before message 0 the control point cannot notice that it is missing: message 1 is accepted as well. */
  lemma FirstLossUnnoticed(sub: Subscription, grant: Grant, now: int)
    requires !IsSubscribed(sub)
    ensures InSequence(Subscribe(sub, grant, now).eventKey, 0) && InSequence(Subscribe(sub, grant, now).eventKey, 1)
    ensures forall k | 1 < k < TWO_TO_THE_64 :: !InSequence(Subscribe(sub, grant, now).eventKey, k)
  {
  }

  // ---------------------------------------------------------------------
  // The state table
  // ---------------------------------------------------------------------

  function Run(c: Client, ns: seq<Notify>): Client
    decreases ns
  {
    if ns == [] then c else Run(Receive(c, ns[0]), ns[1..])
  }

  /** The properties of the notifications that were accepted, in order. */
  function AcceptedProperties(c: Client, ns: seq<Notify>): seq<Property>
    decreases ns
  {
    if ns == [] then []
    else (if Accepts(c, ns[0]) then ns[0].properties else []) + AcceptedProperties(Receive(c, ns[0]), ns[1..])
  }

  lemma {:induction false} UpdateAllConcat(table: seq<Variable>, a: seq<Property>, b: seq<Property>)
    ensures UpdateAll(table, a + b) == UpdateAll(UpdateAll(table, a), b)
    decreases a
  {
    if a == [] {
      assert a + b == b;
    } else {
      UpdateAllConcat(UpdateTable(table, a[0]), a[1..], b);
      assert (a + b)[1..] == a[1..] + b;
    }
  }

  /** The state table after a run is the fold of the properties accepted in it. */
  lemma {:induction false} TableIsFoldOfAccepted(c: Client, ns: seq<Notify>)
    ensures Run(c, ns).table == UpdateAll(c.table, AcceptedProperties(c, ns))
    decreases ns
  {
    if ns != [] {
      var ps := if Accepts(c, ns[0]) then ns[0].properties else [];
      TableIsFoldOfAccepted(Receive(c, ns[0]), ns[1..]);
      UpdateAllConcat(c.table, ps, AcceptedProperties(Receive(c, ns[0]), ns[1..]));
    }
  }

  function Lookup(table: seq<Variable>, name: string): (r: Option<string>) {
    if table == [] then None else if table[0].name == name then Some(table[0].value) else Lookup(table[1..], name)
  }

  /** The last value that the properties give to the name. */
  function LastValue(ps: seq<Property>, name: string): CString {
    if ps == [] then None
    else
      var later := LastValue(ps[1..], name);
      if later.Some? then later else if ps[0].name == Some(name) then ps[0].value else None
  }

  lemma {:induction false} LookupAfterUpdate(table: seq<Variable>, p: Property, name: string)
    requires name != ""
    ensures Lookup(UpdateTable(table, p), name)
         == (match Lookup(table, name)
             case None => None
             case Some(v) => Some(if p.name == Some(name) && p.value.Some? then p.value.value else v))
  {
    if table != [] {
      LookupAfterUpdate(table[1..], p, name);
      assert ([table[0]] + UpdateTable(table[1..], p))[1..] == UpdateTable(table[1..], p);
    }
  }

  lemma {:induction false} LookupAfterAll(table: seq<Variable>, ps: seq<Property>, name: string)
    requires name != ""
    ensures Lookup(UpdateAll(table, ps), name)
         == (match Lookup(table, name)
             case None => None
             case Some(v) => Some(var last := LastValue(ps, name); if last.Some? then last.value else v))
    decreases ps
  {
    if ps != [] {
      LookupAfterUpdate(table, ps[0], name);
      LookupAfterAll(UpdateTable(table, ps[0]), ps[1..], name);
    }
  }

  /** So a variable has the last value that an accepted notification gave it, or its first value if none did. */
  lemma VariableHasLastAcceptedValue(c: Client, ns: seq<Notify>, name: string)
    requires name != ""
    ensures Lookup(Run(c, ns).table, name)
         == (match Lookup(c.table, name)
             case None => None
             case Some(v) =>
               var last := LastValue(AcceptedProperties(c, ns), name);
               Some(if last.Some? then last.value else v))
  {
    TableIsFoldOfAccepted(c, ns);
    LookupAfterAll(c.table, AcceptedProperties(c, ns), name);
  }

  // ---------------------------------------------------------------------
  // Numbering, seen from the whole run
  // ---------------------------------------------------------------------

  predicate AllAccepted(c: Client, ns: seq<Notify>)
    decreases ns
  {
    ns == [] || (Accepts(c, ns[0]) && AllAccepted(Receive(c, ns[0]), ns[1..]))
  }

  /** In-order delivery from message 0 on, under one SID, of a publisher that wraps after `wrap`. */
  predicate InOrder(ns: seq<Notify>, wrap: nat, sid: string)
    requires wrap > 0
  {
    forall i | 0 <= i < |ns| :: ns[i].sid == sid && ns[i].seqNumber == Number(wrap, i)
  }

  lemma {:induction false} AcceptedSnoc(c: Client, ns: seq<Notify>, n: Notify)
    ensures Run(c, ns + [n]) == Receive(Run(c, ns), n)
    ensures AllAccepted(c, ns + [n]) <==> AllAccepted(c, ns) && Accepts(Run(c, ns), n)
    decreases ns
  {
    if ns == [] {
      assert ns + [n] == [n];
    } else {
      AcceptedSnoc(Receive(c, ns[0]), ns[1..], n);
      assert (ns + [n])[1..] == ns[1..] + [n] && (ns + [n])[0] == ns[0];
    }
  }

  lemma {:induction false} RunFollowsKey(c: Client, ns: seq<Notify>, wrap: nat)
    requires wrap > 0 && IsSubscribed(c.sub) && c.sub.eventKey == 0 && InOrder(ns, wrap, c.sub.sid)
    ensures AllAccepted(c, ns) <==> ns == [] || KeyAfter(wrap, |ns| - 1).Some?
    ensures AllAccepted(c, ns) ==>
      Run(c, ns).sub == c.sub.(eventKey := if ns == [] then 0 else KeyAfter(wrap, |ns| - 1).value)
    decreases |ns|
  {
    if ns != [] {
      var n := |ns| - 1;
      var last, init := ns[n], ns[..n];
      assert ns == init + [last];
      RunFollowsKey(c, init, wrap);
      AcceptedSnoc(c, init, last);
    }
  }

  /**
   * A subscribed service that receives every message of such a publisher in
   * order accepts all of them, and so never subscribes again, if and only if
   * the publisher wraps at 2^31 - 1 or has not sent more than the smaller of
   * its own wrap and 2^31 - 1 after message 0.
   */
  lemma NeverResubscribesIff(c: Client, ns: seq<Notify>, wrap: nat)
    requires wrap > 0 && IsSubscribed(c.sub) && c.sub.eventKey == 0 && InOrder(ns, wrap, c.sub.sid)
    ensures AllAccepted(c, ns) <==> wrap == 0x7FFF_FFFF || |ns| <= Min(wrap, 0x7FFF_FFFF) + 1
    ensures AllAccepted(c, ns) ==> Run(c, ns).sub.sid == c.sub.sid
  {
    RunFollowsKey(c, ns, wrap);
    if ns != [] {
      InSequenceIff(wrap, |ns| - 1);
    }
  }

  /**
   * So a loss heals: once a notification out of sequence has led to a new
   * subscription, a publisher that starts again at 0 under the granted SID is
   * accepted exactly as far as any other one.
   */
  lemma AcceptedAfterRejection(c: Client, n: Notify, ns: seq<Notify>, wrap: nat)
    requires wrap > 0 && c.sub.sid != "" && n.sid == c.sub.sid && !Follows(c.sub.eventKey, n.seqNumber)
    requires n.grant.Some? && n.grant.value.0.Some? && n.grant.value.0.value != ""
    requires InOrder(ns, wrap, n.grant.value.0.value)
    ensures Run(c, [n] + ns) == Run(Receive(c, n), ns)
    ensures AllAccepted(Receive(c, n), ns) <==> wrap == 0x7FFF_FFFF || |ns| <= Min(wrap, 0x7FFF_FFFF) + 1
    ensures AllAccepted(Receive(c, n), ns) ==> Run(c, [n] + ns).sub.sid == n.grant.value.0.value
  {
    NotifyOutcome(c, n);
    assert ([n] + ns)[1..] == ns;
    hide Receive, InOrder, AllAccepted;
    NeverResubscribesIff(Receive(c, n), ns, wrap);
  }
}
