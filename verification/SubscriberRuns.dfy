/** The subscriber list over whole runs of requests and notification passes. */
module SubscriberRuns {
  import opened Sequences
  import opened Subscribers

  datatype Event =
    | Asked(request: Request, freshSid: string, now: int)
    | Passed(clock: Clock, network: Network)

  function Step(subs: seq<Sub>, e: Event): seq<Sub> {
    match e
    case Asked(r, freshSid, now) => Handle(subs, r, freshSid, now).0
    case Passed(clock, network) => NotifyPass(subs, clock, network).0
  }

  function Run(subs: seq<Sub>, events: seq<Event>): seq<Sub>
    decreases |events|
  {
    if events == [] then subs else Run(Step(subs, events[0]), events[1..])
  }

  // ---------------------------------------------------------------------
  // What each event grants and ends
  // ---------------------------------------------------------------------

  /** The SID that a new subscription was granted. */
  function GrantedBy(subs: seq<Sub>, e: Event): seq<string> {
    if e.Asked? && e.request.callback.Some? && Handle(subs, e.request, e.freshSid, e.now).1.Ok? then [e.freshSid] else []
  }

  /** The SIDs of the entries that have expired when the sweep reaches them. */
  function ExpiredSids(subs: seq<Sub>, clock: Clock, n: nat): set<string> {
    if subs == [] then {}
    else (if Expired(subs[0], clock(n)) then {subs[0].sid} else {}) + ExpiredSids(subs[1..], clock, n + 1)
  }

  /** The SIDs of the entries that the network does not reach. */
  function FailedSids(subs: seq<Sub>, network: Network, n: nat): set<string> {
    if subs == [] then {}
    else (if network(n) then {} else {subs[0].sid}) + FailedSids(subs[1..], network, n + 1)
  }

  /** The SIDs that were unsubscribed, swept as expired, or not reached. */
  function EndedBy(subs: seq<Sub>, e: Event): set<string> {
    match e
    case Asked(r, freshSid, now) =>
      if Handle(subs, r, freshSid, now).1.Unsubscribed? then {subs[IndexOf(subs, SidOfHeader(r.sid)).value].sid} else {}
    case Passed(clock, network) => ExpiredSids(subs, clock, 0) + FailedSids(Sweep(subs, clock, 0), network, 0)
  }

  function Grants(subs: seq<Sub>, events: seq<Event>): seq<string>
    decreases |events|
  {
    if events == [] then [] else GrantedBy(subs, events[0]) + Grants(Step(subs, events[0]), events[1..])
  }

  function Ended(subs: seq<Sub>, events: seq<Event>): set<string>
    decreases |events|
  {
    if events == [] then {} else EndedBy(subs, events[0]) + Ended(Step(subs, events[0]), events[1..])
  }

  // ---------------------------------------------------------------------
  // Filtering
  // ---------------------------------------------------------------------

  function IfKept(sid: string, gone: set<string>): seq<string> {
    if sid in gone then [] else [sid]
  }

  /** The SIDs that are not gone, in order. */
  function Keep(sids: seq<string>, gone: set<string>): seq<string> {
    if sids == [] then [] else IfKept(sids[0], gone) + Keep(sids[1..], gone)
  }

  lemma {:induction false} KeepConcat(a: seq<string>, b: seq<string>, gone: set<string>)
    ensures Keep(a + b, gone) == Keep(a, gone) + Keep(b, gone)
  {
    hide IfKept;
    if a == [] {
      assert a + b == b;
    } else {
      ConcatTail(a, b);
      KeepConcat(a[1..], b, gone);
      ConcatAssociates(IfKept(a[0], gone), Keep(a[1..], gone), Keep(b, gone));
    }
  }

  lemma {:induction false} KeepIgnores(sids: seq<string>, gone: set<string>, others: set<string>)
    requires forall x | x in others :: x !in sids
    ensures Keep(sids, gone + others) == Keep(sids, gone)
  {
    if sids != [] {
      assert sids[0] in sids && forall x | x in sids[1..] :: x in sids;
      KeepIgnores(sids[1..], gone, others);
    }
  }

  lemma {:induction false} KeepTwice(sids: seq<string>, gone: set<string>, later: set<string>)
    ensures Keep(Keep(sids, gone), later) == Keep(sids, gone + later)
  {
    if sids != [] {
      KeepTwice(sids[1..], gone, later);
      KeepConcat(IfKept(sids[0], gone), Keep(sids[1..], gone), later);
    }
  }

  lemma {:induction false} KeepIsFilter(sids: seq<string>, gone: set<string>)
    ensures forall x :: x in Keep(sids, gone) <==> x in sids && x !in gone
  {
    if sids != [] {
      KeepIsFilter(sids[1..], gone);
      assert sids == [sids[0]] + sids[1..];
    }
  }

  lemma {:induction false} KeepDistinct(sids: seq<string>, gone: set<string>)
    requires Distinct(sids)
    ensures Distinct(Keep(sids, gone))
  {
    if sids != [] {
      KeepDistinct(sids[1..], gone);
      KeepIsFilter(sids[1..], gone);
      var rest := Keep(sids[1..], gone);
      assert forall k | 0 <= k < |rest| :: rest[k] in rest;
      assert sids[0] !in sids[1..];
    }
  }

  lemma DistinctConcat(a: seq<string>, b: seq<string>)
    ensures Distinct(a + b) <==> Distinct(a) && Distinct(b) && forall x | x in a :: x !in b
  {
    var ab := a + b;
    assert forall i | 0 <= i < |a| :: ab[i] == a[i];
    assert forall i | 0 <= i < |b| :: ab[|a| + i] == b[i];
    if Distinct(ab) {
      forall x | x in a ensures x !in b {
        var i :| 0 <= i < |a| && a[i] == x;
      }
    }
    if Distinct(a) && Distinct(b) && forall x | x in a :: x !in b {
      forall i, j | 0 <= i < j < |ab| ensures ab[i] != ab[j] {
        assert i < |a| ==> ab[i] in a;
        assert j >= |a| ==> ab[j] in b;
        assert i >= |a| ==> ab[i] == b[i - |a|] && ab[j] == b[j - |a|];
      }
    }
  }

  // ---------------------------------------------------------------------
  // One event
  // ---------------------------------------------------------------------

  lemma SidsCons(subs: seq<Sub>)
    requires subs != []
    ensures SidsOf(subs) == [subs[0].sid] + SidsOf(subs[1..]) && SidsOf(subs)[1..] == SidsOf(subs[1..])
  {
  }

  lemma SidsConcat(a: seq<Sub>, b: seq<Sub>)
    ensures SidsOf(a + b) == SidsOf(a) + SidsOf(b)
  {
  }

  lemma {:induction false} ExpiredAreListed(subs: seq<Sub>, clock: Clock, n: nat)
    ensures forall x | x in ExpiredSids(subs, clock, n) :: x in SidsOf(subs)
  {
    if subs != [] {
      ExpiredAreListed(subs[1..], clock, n + 1);
      SidsCons(subs);
    }
  }

  lemma {:induction false} FailedAreListed(subs: seq<Sub>, network: Network, n: nat)
    ensures forall x | x in FailedSids(subs, network, n) :: x in SidsOf(subs)
  {
    if subs != [] {
      FailedAreListed(subs[1..], network, n + 1);
      SidsCons(subs);
    }
  }

  /** One entry in front: it goes if it is gone, and the set of the others does not touch it. */
  lemma KeepFirst(sids: seq<string>, first: set<string>, others: set<string>)
    requires sids != [] && Distinct(sids) && first <= {sids[0]}
    requires forall x | x in others :: x in sids[1..]
    ensures Keep(sids, first + others) == (if sids[0] in first then [] else [sids[0]]) + Keep(sids[1..], others)
  {
    assert sids[0] !in sids[1..];
    KeepIgnores(sids[1..], others, first);
    assert first + others == others + first;
  }

  lemma {:induction false} SweepKeeps(subs: seq<Sub>, clock: Clock, n: nat)
    requires Distinct(SidsOf(subs))
    ensures SidsOf(Sweep(subs, clock, n)) == Keep(SidsOf(subs), ExpiredSids(subs, clock, n))
  {
    if subs != [] {
      SidsCons(subs);
      SweepKeeps(subs[1..], clock, n + 1);
      ExpiredAreListed(subs[1..], clock, n + 1);
      var first := if Expired(subs[0], clock(n)) then {subs[0].sid} else {};
      KeepFirst(SidsOf(subs), first, ExpiredSids(subs[1..], clock, n + 1));
      SidsConcat(if Expired(subs[0], clock(n)) then [] else [subs[0]], Sweep(subs[1..], clock, n + 1));
      hide Keep, SidsOf, Expired;
      assert SidsOf([]) == [] && SidsOf([subs[0]]) == [subs[0].sid];
    }
  }

  lemma {:induction false} DeliverKeeps(subs: seq<Sub>, network: Network, n: nat)
    requires Distinct(SidsOf(subs))
    ensures SidsOf(Deliver(subs, network, n)) == Keep(SidsOf(subs), FailedSids(subs, network, n))
  {
    if subs != [] {
      SidsCons(subs);
      DeliverKeeps(subs[1..], network, n + 1);
      FailedAreListed(subs[1..], network, n + 1);
      var first := if network(n) then {} else {subs[0].sid};
      KeepFirst(SidsOf(subs), first, FailedSids(subs[1..], network, n + 1));
      SidsConcat(if network(n) then [Counted(subs[0])] else [], Deliver(subs[1..], network, n + 1));
      hide Keep, SidsOf;
      assert SidsOf([]) == [] && SidsOf([Counted(subs[0])]) == [subs[0].sid];
    }
  }

  lemma PassKeeps(subs: seq<Sub>, clock: Clock, network: Network)
    requires Distinct(SidsOf(subs))
    ensures SidsOf(NotifyPass(subs, clock, network).0) == Keep(SidsOf(subs), EndedBy(subs, Passed(clock, network)))
  {
    SweepKeeps(subs, clock, 0);
    KeepDistinct(SidsOf(subs), ExpiredSids(subs, clock, 0));
    DeliverKeeps(Sweep(subs, clock, 0), network, 0);
    KeepTwice(SidsOf(subs), ExpiredSids(subs, clock, 0), FailedSids(Sweep(subs, clock, 0), network, 0));
  }

  lemma {:induction false} KeepAll(sids: seq<string>)
    ensures Keep(sids, {}) == sids
  {
    if sids != [] {
      KeepAll(sids[1..]);
    }
  }

  lemma KeepUntouched(sids: seq<string>, sid: string)
    requires sid !in sids
    ensures Keep(sids, {sid}) == sids
  {
    KeepIgnores(sids, {}, {sid});
    KeepAll(sids);
    assert {} + {sid} == {sid};
  }

  lemma KeepMiddle(before: seq<string>, x: string, after: seq<string>)
    requires x !in before && x !in after
    ensures Keep(before + ([x] + after), {x}) == before + after
  {
    assert Keep([x], {x}) == [];
    hide Keep;
    KeepConcat([x], after, {x});
    KeepConcat(before, [x] + after, {x});
    KeepUntouched(before, x);
    KeepUntouched(after, x);
    assert [] + after == after;
  }

  lemma KeepOthers(sids: seq<string>, i: nat)
    requires i < |sids| && Distinct(sids)
    ensures Keep(sids, {sids[i]}) == sids[..i] + sids[i + 1..]
  {
    hide Keep;
    assert sids[i] !in sids[..i] && sids[i] !in sids[i + 1..];
    hide Distinct;
    KeepMiddle(sids[..i], sids[i], sids[i + 1..]);
    CutAround(sids, i);
  }

  lemma SidsOfRemoval(subs: seq<Sub>, i: nat)
    requires i < |subs|
    ensures SidsOf(subs[..i] + subs[i + 1..]) == SidsOf(subs)[..i] + SidsOf(subs)[i + 1..]
  {
  }

  lemma SidsOfRenewal(subs: seq<Sub>, i: nat, timeout: int, now: int)
    requires i < |subs|
    ensures SidsOf(subs[i := subs[i].(timeout := timeout, since := now)]) == SidsOf(subs)
  {
  }

  lemma RequestKeeps(subs: seq<Sub>, r: Request, freshSid: string, now: int)
    requires Distinct(SidsOf(subs))
    ensures var e := Asked(r, freshSid, now);
            SidsOf(Handle(subs, r, freshSid, now).0) == Keep(SidsOf(subs), EndedBy(subs, e)) + GrantedBy(subs, e)
  {
    var e, sids := Asked(r, freshSid, now), SidsOf(subs);
    var (after, response) := Handle(subs, r, freshSid, now);
    var found := IndexOf(subs, SidOfHeader(r.sid));
    KeepAll(sids);
    hide IndexOf, GrantedTimeout, SidOfHeader, SidToken, DeliveryUrl, Keep, Distinct, SidsOf;
    if response.Unsubscribed? {
      KeepOthers(sids, found.value);
      SidsOfRemoval(subs, found.value);
      assert EndedBy(subs, e) == {sids[found.value]} && GrantedBy(subs, e) == [];
    } else if GrantedBy(subs, e) != [] {
      var s := Sub(freshSid, DeliveryUrl(r.callback.value), GrantedTimeout(r.timeout), now, 0);
      assert after == subs + [s] && EndedBy(subs, e) == {};
      SidsConcat(subs, [s]);
      assert SidsOf([s]) == [freshSid];
    } else if response.Ok? {
      SidsOfRenewal(subs, found.value, GrantedTimeout(r.timeout), now);
    }
  }

  lemma StepKeeps(subs: seq<Sub>, e: Event)
    requires Distinct(SidsOf(subs))
    ensures SidsOf(Step(subs, e)) == Keep(SidsOf(subs), EndedBy(subs, e)) + GrantedBy(subs, e)
    ensures forall x | x in EndedBy(subs, e) :: x in SidsOf(subs)
  {
    match e
    case Asked(r, freshSid, now) =>
      RequestKeeps(subs, r, freshSid, now);
      EndedRequestIsListed(subs, r, freshSid, now);
    case Passed(clock, network) =>
      PassKeeps(subs, clock, network);
      ExpiredAreListed(subs, clock, 0);
      FailedAreListed(Sweep(subs, clock, 0), network, 0);
      SweepKeeps(subs, clock, 0);
      KeepIsFilter(SidsOf(subs), ExpiredSids(subs, clock, 0));
  }

  lemma EndedRequestIsListed(subs: seq<Sub>, r: Request, freshSid: string, now: int)
    ensures forall x | x in EndedBy(subs, Asked(r, freshSid, now)) :: x in SidsOf(subs)
  {
    var found := IndexOf(subs, SidOfHeader(r.sid));
    if found.Some? {
      assert SidsOf(subs)[found.value] == subs[found.value].sid;
    }
  }

  // ---------------------------------------------------------------------
  // Whole runs
  // ---------------------------------------------------------------------

  /**
   * With fresh SIDs, the subscriber list after a run is exactly the SIDs
   * granted so far that have not been unsubscribed, swept as expired or
   * dropped after a failed delivery, in the order in which they were granted.
   */
  lemma {:induction false} ListIsLiveGrants(subs: seq<Sub>, events: seq<Event>)
    requires Distinct(SidsOf(subs) + Grants(subs, events))
    ensures SidsOf(Run(subs, events)) == Keep(SidsOf(subs) + Grants(subs, events), Ended(subs, events))
    decreases |events|
  {
    var sids := SidsOf(subs);
    if events == [] {
      KeepAll(sids);
      assert sids + [] == sids;
    } else {
      var next, rest := Step(subs, events[0]), events[1..];
      var gone, later := EndedBy(subs, events[0]), Ended(next, rest);
      var granted, grants := GrantedBy(subs, events[0]), Grants(next, rest);
      assert Grants(subs, events) == granted + grants && Ended(subs, events) == gone + later;
      assert Run(subs, events) == Run(next, rest);
      hide Step, EndedBy, GrantedBy, Keep, SidsOf, Distinct, Grants, Ended, Run;
      DistinctConcat(sids, granted + grants);
      StepKeeps(subs, events[0]);
      StillDistinct(sids, granted + grants, gone);
      ConcatAssociates(Keep(sids, gone), granted, grants);
      ListIsLiveGrants(next, rest);
      KeepComposes(sids, granted + grants, gone, later);
    }
  }

  lemma StillDistinct(sids: seq<string>, newer: seq<string>, gone: set<string>)
    requires Distinct(sids + newer) && forall x | x in gone :: x in sids
    ensures Distinct(sids) && Distinct(Keep(sids, gone) + newer) && forall x | x in gone :: x !in newer
  {
    hide Distinct, Keep;
    DistinctConcat(sids, newer);
    KeepDistinct(sids, gone);
    KeepIsFilter(sids, gone);
    DistinctConcat(Keep(sids, gone), newer);
  }

  lemma KeepComposes(sids: seq<string>, newer: seq<string>, gone: set<string>, later: set<string>)
    requires forall x | x in gone :: x !in newer
    ensures Keep(Keep(sids, gone) + newer, later) == Keep(sids + newer, gone + later)
  {
    KeepConcat(Keep(sids, gone), newer, later);
    KeepTwice(sids, gone, later);
    KeepIgnores(newer, later, gone);
    assert later + gone == gone + later;
    KeepConcat(sids, newer, gone + later);
  }

  predicate TimeoutsOk(subs: seq<Sub>) {
    forall i | 0 <= i < |subs| :: 1 <= subs[i].timeout <= MAX_TIMEOUT && subs[i].timeout != INFINITE
  }

  lemma {:induction false} SweepKeepsTimeouts(subs: seq<Sub>, clock: Clock, n: nat)
    requires TimeoutsOk(subs)
    ensures TimeoutsOk(Sweep(subs, clock, n))
  {
    if subs != [] {
      SweepKeepsTimeouts(subs[1..], clock, n + 1);
    }
  }

  lemma {:induction false} DeliverKeepsTimeouts(subs: seq<Sub>, network: Network, n: nat)
    requires TimeoutsOk(subs)
    ensures TimeoutsOk(Deliver(subs, network, n))
  {
    if subs != [] {
      DeliverKeepsTimeouts(subs[1..], network, n + 1);
    }
  }

  /** No subscription is ever held for longer than 300 seconds at a time, and none for ever. */
  lemma {:induction false} TimeoutsStayBounded(subs: seq<Sub>, events: seq<Event>)
    requires TimeoutsOk(subs)
    ensures TimeoutsOk(Run(subs, events))
    decreases |events|
  {
    if events != [] {
      match events[0] {
        case Asked(r, freshSid, now) =>
          hide GrantedTimeout, IndexOf, SidOfHeader, SidToken, DeliveryUrl;
          assert TimeoutsOk(Step(subs, events[0]));
        case Passed(clock, network) =>
          SweepKeepsTimeouts(subs, clock, 0);
          DeliverKeepsTimeouts(Sweep(subs, clock, 0), network, 0);
      }
      TimeoutsStayBounded(Step(subs, events[0]), events[1..]);
    }
  }

  lemma {:induction false} SweptIffExpired(subs: seq<Sub>, clock: Clock, n: nat, i: nat)
    requires Distinct(SidsOf(subs)) && i < |subs|
    ensures subs[i].sid in ExpiredSids(subs, clock, n) <==> Expired(subs[i], clock(n + i))
  {
    SidsCons(subs);
    ExpiredAreListed(subs[1..], clock, n + 1);
    assert SidsOf(subs)[0] !in SidsOf(subs)[1..];
    if i > 0 {
      SweptIffExpired(subs[1..], clock, n + 1, i - 1);
      assert subs[i].sid == SidsOf(subs)[i];
    }
  }

  /** A pass sends one message, with its notify count, to each entry whose time is not up at its test, and to no other. */
  lemma PassDeliversOnce(subs: seq<Sub>, clock: Clock, network: Network, i: nat)
    requires Distinct(SidsOf(subs)) && i < |subs|
    ensures var sent := NotifyPass(subs, clock, network).1;
            && (forall a, b | 0 <= a < b < |sent| :: sent[a].sid != sent[b].sid)
            && ((exists a :: 0 <= a < |sent| && sent[a].sid == subs[i].sid)
                <==> subs[i].timeout == -1 || clock(i) <= subs[i].since + subs[i].timeout)
            && (subs[i].timeout == -1 || clock(i) <= subs[i].since + subs[i].timeout ==>
                  Sent(subs[i].sid, subs[i].notifyCount) in sent)
  {
    var live := Sweep(subs, clock, 0);
    SweepKeeps(subs, clock, 0);
    KeepDistinct(SidsOf(subs), ExpiredSids(subs, clock, 0));
    KeepIsFilter(SidsOf(subs), ExpiredSids(subs, clock, 0));
    SweptIffExpired(subs, clock, 0, i);
    assert Expired(subs[i], clock(i)) <==> !(subs[i].timeout == -1 || clock(i) <= subs[i].since + subs[i].timeout);
    if !Expired(subs[i], clock(i)) {
      SweepKeepsEntry(subs, clock, 0, i);
    }
    assert SidsOf(subs)[i] == subs[i].sid;
    hide Sweep, Keep, ExpiredSids, Expired;
    MessagesMatch(live, subs[i]);
  }

  /** Among entries with distinct SIDs there is one message for each. */
  lemma MessagesMatch(live: seq<Sub>, s: Sub)
    requires Distinct(SidsOf(live))
    ensures var sent := Messages(live);
            && (forall a, b | 0 <= a < b < |sent| :: sent[a].sid != sent[b].sid)
            && ((exists a :: 0 <= a < |sent| && sent[a].sid == s.sid) <==> s.sid in SidsOf(live))
            && (s in live ==> Sent(s.sid, s.notifyCount) in sent)
  {
    hide Messages, SidsOf;
    var sent, sids := Messages(live), SidsOf(live);
    assert forall a | 0 <= a < |sent| :: sent[a].sid == sids[a];
    if s.sid in sids {
      var a :| 0 <= a < |sids| && sids[a] == s.sid;
      assert sent[a].sid == s.sid;
    }
    if s in live {
      var a :| 0 <= a < |live| && live[a] == s;
      assert sent[a] == Sent(s.sid, s.notifyCount);
    }
  }

  lemma {:induction false} SweepKeepsEntry(subs: seq<Sub>, clock: Clock, n: nat, i: nat)
    requires i < |subs| && !Expired(subs[i], clock(n + i))
    ensures subs[i] in Sweep(subs, clock, n)
  {
    if i > 0 {
      SweepKeepsEntry(subs[1..], clock, n + 1, i - 1);
    }
  }
}
