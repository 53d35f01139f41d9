/** One subscription through a run: how long it lasts and how its messages are numbered. */
module SubscriberTimes {
  import opened Sequences
  import opened Text
  import opened Subscribers
  import opened SubscriberRuns
  import EventKey

  // ---------------------------------------------------------------------
  // One pass, around one entry
  // ---------------------------------------------------------------------

  lemma {:induction false} SweepConcat(a: seq<Sub>, b: seq<Sub>, clock: Clock, n: nat)
    ensures Sweep(a + b, clock, n) == Sweep(a, clock, n) + Sweep(b, clock, n + |a|)
  {
    if a == [] {
      assert a + b == b;
    } else {
      ConcatTail(a, b);
      SweepConcat(a[1..], b, clock, n + 1);
      var first := if Expired(a[0], clock(n)) then [] else [a[0]];
      ConcatAssociates(first, Sweep(a[1..], clock, n + 1), Sweep(b, clock, n + |a|));
    }
  }

  lemma {:induction false} DeliverConcat(a: seq<Sub>, b: seq<Sub>, network: Network, n: nat)
    ensures Deliver(a + b, network, n) == Deliver(a, network, n) + Deliver(b, network, n + |a|)
  {
    if a == [] {
      assert a + b == b;
    } else {
      ConcatTail(a, b);
      DeliverConcat(a[1..], b, network, n + 1);
      var first := if network(n) then [Counted(a[0])] else [];
      ConcatAssociates(first, Deliver(a[1..], network, n + 1), Deliver(b, network, n + |a|));
    }
  }

  /** The SEQ numbers of the messages that went to this SID, in order. */
  function NumbersTo(sent: seq<Sent>, sid: string): seq<nat> {
    if sent == [] then [] else (if sent[0].sid == sid then [sent[0].seqNumber] else []) + NumbersTo(sent[1..], sid)
  }

  lemma NumbersCons(subs: seq<Sub>, sid: string)
    requires subs != []
    ensures NumbersTo(Messages(subs), sid)
         == (if subs[0].sid == sid then [subs[0].notifyCount] else []) + NumbersTo(Messages(subs[1..]), sid)
  {
    assert Messages(subs)[1..] == Messages(subs[1..]);
  }

  lemma {:induction false} NumbersConcat(a: seq<Sub>, b: seq<Sub>, sid: string)
    ensures NumbersTo(Messages(a + b), sid) == NumbersTo(Messages(a), sid) + NumbersTo(Messages(b), sid)
  {
    if a == [] {
      assert a + b == b;
    } else {
      ConcatTail(a, b);
      NumbersConcat(a[1..], b, sid);
      NumbersCons(a, sid);
      NumbersCons(a + b, sid);
      hide Messages, NumbersTo;
    }
  }

  lemma {:induction false} NoNumbers(subs: seq<Sub>, sid: string)
    requires sid !in SidsOf(subs)
    ensures NumbersTo(Messages(subs), sid) == []
  {
    if subs != [] {
      SidsCons(subs);
      NoNumbers(subs[1..], sid);
      assert Messages(subs)[1..] == Messages(subs[1..]);
    }
  }

  lemma {:induction false} SweptWereListed(subs: seq<Sub>, clock: Clock, n: nat)
    ensures forall x | x in SidsOf(Sweep(subs, clock, n)) :: x in SidsOf(subs)
  {
    if subs != [] {
      SweptWereListed(subs[1..], clock, n + 1);
      SidsCons(subs);
      SidsConcat(if Expired(subs[0], clock(n)) then [] else [subs[0]], Sweep(subs[1..], clock, n + 1));
    }
  }

  lemma {:induction false} DeliveredWereListed(subs: seq<Sub>, network: Network, n: nat)
    ensures forall x | x in SidsOf(Deliver(subs, network, n)) :: x in SidsOf(subs)
  {
    if subs != [] {
      DeliveredWereListed(subs[1..], network, n + 1);
      SidsCons(subs);
      SidsConcat(if network(n) then [Counted(subs[0])] else [], Deliver(subs[1..], network, n + 1));
    }
  }

  /** The list is this entry with others around it. */
  ghost predicate Around(subs: seq<Sub>, before: seq<Sub>, s: Sub, after: seq<Sub>) {
    subs == before + [s] + after && s.sid !in SidsOf(before) && s.sid !in SidsOf(after)
  }

  ghost predicate Holds(subs: seq<Sub>, s: Sub) {
    exists before, after :: Around(subs, before, s, after)
  }

  /** How many entries the sweep leaves. */
  function Left(subs: seq<Sub>, clock: Clock): nat {
    |Sweep(subs, clock, 0)|
  }

  lemma SweepAround(before: seq<Sub>, s: Sub, after: seq<Sub>, clock: Clock)
    ensures Sweep(before + [s] + after, clock, 0)
         == Sweep(before, clock, 0) + (if s.timeout == -1 || clock(|before|) <= s.since + s.timeout then [s] else [])
            + Sweep(after, clock, |before| + 1)
  {
    SweepConcat(before + [s], after, clock, 0);
    SweepConcat(before, [s], clock, 0);
    assert [s][1..] == [];
  }

  lemma DeliverAround(before: seq<Sub>, s: Sub, after: seq<Sub>, network: Network)
    ensures Deliver(before + [s] + after, network, 0)
         == Deliver(before, network, 0) + (if network(|before|) then [Counted(s)] else [])
            + Deliver(after, network, |before| + 1)
  {
    DeliverConcat(before + [s], after, network, 0);
    DeliverConcat(before, [s], network, 0);
    assert [s][1..] == [];
  }

  /** Nobody else's entry in the pass has this SID. */
  lemma OthersInPass(subs: seq<Sub>, sid: string, clock: Clock, network: Network, n: nat, m: nat)
    requires sid !in SidsOf(subs)
    ensures sid !in SidsOf(Sweep(subs, clock, n)) && sid !in SidsOf(Deliver(Sweep(subs, clock, n), network, m))
  {
    SweptWereListed(subs, clock, n);
    DeliveredWereListed(Sweep(subs, clock, n), network, m);
  }

  /**
   * A pass and one entry: it gets a message, numbered by its count, exactly if
   * its time is not up at its test; it stays, counted, exactly if that message
   * also reached it.
   */
  lemma PassOnEntry(before: seq<Sub>, s: Sub, after: seq<Sub>, clock: Clock, network: Network)
    requires s.sid !in SidsOf(before) && s.sid !in SidsOf(after)
    ensures var (list, sent) := NotifyPass(before + [s] + after, clock, network);
            var inTime := s.timeout == -1 || clock(|before|) <= s.since + s.timeout;
            && NumbersTo(sent, s.sid) == (if inTime then [s.notifyCount] else [])
            && (inTime && network(Left(before, clock)) ==> Holds(list, Counted(s)))
            && (!(inTime && network(Left(before, clock))) ==> s.sid !in SidsOf(list))
  {
    var inTime := s.timeout == -1 || clock(|before|) <= s.since + s.timeout;
    var a, b := Sweep(before, clock, 0), Sweep(after, clock, |before| + 1);
    SweepAround(before, s, after, clock);
    OthersInPass(before, s.sid, clock, network, 0, 0);
    OthersInPass(after, s.sid, clock, network, |before| + 1, if inTime then |a| + 1 else |a|);
    hide Sweep, Deliver, SidsOf, Messages, NumbersTo;
    if inTime {
      EntryIsNumbered(a, s, b);
      DeliverAround(a, s, b, network);
      if network(|a|) {
        assert Around(Deliver(a + [s] + b, network, 0), Deliver(a, network, 0), Counted(s), Deliver(b, network, |a| + 1));
      } else {
        SidsConcat(Deliver(a, network, 0), Deliver(b, network, |a| + 1));
        assert Deliver(a, network, 0) + [] == Deliver(a, network, 0);
      }
    } else {
      assert a + [] == a;
      DeliverConcat(a, b, network, 0);
      SidsConcat(Deliver(a, network, 0), Deliver(b, network, |a|));
      SidsConcat(a, b);
      NoNumbers(a + b, s.sid);
    }
  }

  lemma EntryIsNumbered(before: seq<Sub>, s: Sub, after: seq<Sub>)
    requires s.sid !in SidsOf(before) && s.sid !in SidsOf(after)
    ensures NumbersTo(Messages(before + [s] + after), s.sid) == [s.notifyCount]
  {
    NoNumbers(before, s.sid);
    NoNumbers(after, s.sid);
    NumbersConcat(before + [s], after, s.sid);
    NumbersConcat(before, [s], s.sid);
    assert Messages([s]) == [Sent(s.sid, s.notifyCount)];
    assert NumbersTo([Sent(s.sid, s.notifyCount)], s.sid) == [s.notifyCount] + NumbersTo([], s.sid);
  }

  /** The same for the entry at a position of a list with distinct SIDs. */
  lemma PassOnEntryAt(subs: seq<Sub>, p: nat, clock: Clock, network: Network)
    requires Distinct(SidsOf(subs)) && p < |subs|
    ensures var s := subs[p];
            var (list, sent) := NotifyPass(subs, clock, network);
            var inTime := s.timeout == -1 || clock(p) <= s.since + s.timeout;
            && NumbersTo(sent, s.sid) == (if inTime then [s.notifyCount] else [])
            && (inTime && network(Left(subs[..p], clock)) ==> Counted(s) in list)
            && (!(inTime && network(Left(subs[..p], clock))) ==> s.sid !in SidsOf(list))
  {
    var before, s, after := subs[..p], subs[p], subs[p + 1..];
    assert forall i | 0 <= i < |subs| && i != p :: SidsOf(subs)[i] != SidsOf(subs)[p];
    hide NotifyPass, NumbersTo, Left;
    assert subs == before + [s] + after;
    PassOnEntry(before, s, after, clock, network);
    HeldIsListed(NotifyPass(subs, clock, network).0, Counted(s));
  }

  lemma HeldIsListed(subs: seq<Sub>, s: Sub)
    ensures Holds(subs, s) ==> s in subs
  {
  }

  // ---------------------------------------------------------------------
  // One request, around one entry
  // ---------------------------------------------------------------------

  /** The request renews or ends this subscription, unless it is refused. */
  ghost predicate IsAbout(subs: seq<Sub>, e: Event, sid: string) {
    e.Asked? && e.request.callback.None? && exists i: nat :: Names(subs, e.request.sid, i) && subs[i].sid == sid
  }

  /** A request leaves every entry that it is not about, and never changes how many messages one was sent. */
  lemma RequestOnEntry(subs: seq<Sub>, e: Event, s: Sub)
    requires e.Asked? && Distinct(SidsOf(subs)) && s in subs
    ensures !IsAbout(subs, e, s.sid) ==> s in Step(subs, e)
    ensures s.sid in SidsOf(Step(subs, e)) && e.freshSid != s.sid ==>
      exists x :: x in Step(subs, e) && x.sid == s.sid && x.notifyCount == s.notifyCount
  {
    var r := e.request;
    var next := Step(subs, e);
    var p :| 0 <= p < |subs| && subs[p] == s;
    var found := IndexOf(subs, SidOfHeader(r.sid));
    hide IndexOf, SidOfHeader, SidToken, GrantedTimeout, DeliveryUrl;
    if Refusal(r).None? && !(!r.unsubscribe && r.callback.Some?) && found.Some? {
      NamedByHeader(subs, r.sid, found.value);
      assert r.callback.None? ==> (subs[found.value].sid == s.sid ==> IsAbout(subs, e, s.sid));
      SameSidSamePlace(subs, p, found.value);
      if r.unsubscribe {
        WithoutAt(subs, found.value);
        if p != found.value {
          assert next[if p < found.value then p else p - 1] == s;
        } else {
          SidsWithout(subs, p);
        }
      } else {
        assert next[p].sid == s.sid && next[p].notifyCount == s.notifyCount && (p != found.value ==> next[p] == s);
      }
    } else {
      assert next[p] == s;
    }
  }

  lemma NamedByHeader(subs: seq<Sub>, header: CString, i: nat)
    requires IndexOf(subs, SidOfHeader(header)) == Some(i)
    ensures Names(subs, header, i)
  {
    IndexOfNamed(subs, header, i);
  }

  lemma SameSidSamePlace(subs: seq<Sub>, p: nat, q: nat)
    requires Distinct(SidsOf(subs)) && p < |subs| && q < |subs|
    ensures subs[p].sid == subs[q].sid <==> p == q
  {
    assert SidsOf(subs)[p] == subs[p].sid && SidsOf(subs)[q] == subs[q].sid;
  }

  lemma SidsWithout(subs: seq<Sub>, p: nat)
    requires Distinct(SidsOf(subs)) && p < |subs|
    ensures subs[p].sid !in SidsOf(subs[..p] + subs[p + 1..])
  {
    var rest := subs[..p] + subs[p + 1..];
    WithoutAt(subs, p);
    forall k | 0 <= k < |rest| ensures SidsOf(rest)[k] != subs[p].sid {
      SameSidSamePlace(subs, p, if k < p then k else k + 1);
    }
  }

  // ---------------------------------------------------------------------
  // Runs
  // ---------------------------------------------------------------------

  ghost predicate FreshSids(subs: seq<Sub>, events: seq<Event>) {
    Distinct(SidsOf(subs) + Grants(subs, events))
  }

  /** Fresh SIDs are fresh after each event, and those listed before it are never granted again. */
  lemma FreshAfterStep(subs: seq<Sub>, events: seq<Event>)
    requires events != [] && FreshSids(subs, events)
    ensures Distinct(SidsOf(subs)) && FreshSids(Step(subs, events[0]), events[1..])
    ensures forall x | x in SidsOf(subs) ::
              x !in GrantedBy(subs, events[0]) && x !in Grants(Step(subs, events[0]), events[1..])
  {
    var next, rest := Step(subs, events[0]), events[1..];
    var sids, gone := SidsOf(subs), EndedBy(subs, events[0]);
    var granted, grants := GrantedBy(subs, events[0]), Grants(next, rest);
    assert Grants(subs, events) == granted + grants;
    hide Step, EndedBy, GrantedBy, Keep, SidsOf, Distinct, Grants;
    DistinctConcat(sids, granted + grants);
    StepKeeps(subs, events[0]);
    StillDistinct(sids, granted + grants, gone);
    ConcatAssociates(Keep(sids, gone), granted, grants);
  }

  /** A SID that is neither listed nor granted later does not come back. */
  lemma GoneStaysGone(subs: seq<Sub>, events: seq<Event>, sid: string)
    requires FreshSids(subs, events) && sid !in SidsOf(subs) && sid !in Grants(subs, events)
    ensures sid !in SidsOf(Run(subs, events))
  {
    ListIsLiveGrants(subs, events);
    KeepIsFilter(SidsOf(subs) + Grants(subs, events), Ended(subs, events));
    hide SidsOf, Grants, Ended, Run, Keep;
  }

  ghost predicate NothingAbout(subs: seq<Sub>, events: seq<Event>, sid: string)
    decreases |events|
  {
    events == [] || (!IsAbout(subs, events[0], sid) && NothingAbout(Step(subs, events[0]), events[1..], sid))
  }

  /**
   * The event, if it is a pass, tests the subscription made or renewed at
   * `since` no later than its timeout allows, and its message arrives.
   */
  ghost predicate Lasts(subs: seq<Sub>, e: Event, s: Sub) {
    e.Passed? ==>
      exists p | 0 <= p < |subs| && subs[p].sid == s.sid ::
        (s.timeout == -1 || e.clock(p) <= s.since + s.timeout) && e.network(Left(subs[..p], e.clock))
  }

  ghost predicate LastsThrough(subs: seq<Sub>, events: seq<Event>, s: Sub)
    decreases |events|
  {
    events == [] || (Lasts(subs, events[0], s) && LastsThrough(Step(subs, events[0]), events[1..], s))
  }

  lemma PassOnLasting(subs: seq<Sub>, e: Event, s: Sub)
    requires e.Passed? && Distinct(SidsOf(subs)) && s in subs
    ensures Lasts(subs, e, s) ==> Counted(s) in Step(subs, e)
    ensures !Lasts(subs, e, s) ==> s.sid !in SidsOf(Step(subs, e))
  {
    var p :| 0 <= p < |subs| && subs[p] == s;
    hide NotifyPass, Left;
    PassOnEntryAt(subs, p, e.clock, e.network);
    forall q | 0 <= q < |subs| && subs[q].sid == s.sid ensures q == p {
      SameSidSamePlace(subs, p, q);
    }
  }

  lemma ListedSid(subs: seq<Sub>, s: Sub)
    requires s in subs
    ensures s.sid in SidsOf(subs)
  {
    var p :| 0 <= p < |subs| && subs[p] == s;
    assert SidsOf(subs)[p] == s.sid;
  }

  /**
   * How long a subscription lasts: through requests about others, and passes,
   * it is in the list at the end if and only if every pass tested it within
   * its timeout from the moment it was granted or last renewed, and reached it.
   */
  lemma {:induction false} LastsExactly(subs: seq<Sub>, events: seq<Event>, s: Sub)
    requires FreshSids(subs, events) && s in subs && NothingAbout(subs, events, s.sid)
    ensures s.sid in SidsOf(Run(subs, events)) <==> LastsThrough(subs, events, s)
    decreases |events|
  {
    ListedSid(subs, s);
    if events != [] {
      var next, rest := Step(subs, events[0]), events[1..];
      FreshAfterStep(subs, events);
      assert Run(subs, events) == Run(next, rest);
      hide Step, FreshSids, IsAbout, Lasts, SidsOf, Grants, GrantedBy;
      if events[0].Asked? {
        RequestOnEntry(subs, events[0], s);
        PassesOnly(subs, events[0], s);
        LastsExactly(next, rest, s);
      } else {
        PassOnLasting(subs, events[0], s);
        if Lasts(subs, events[0], s) {
          LastsExactly(next, rest, Counted(s));
          SameTerms(next, rest, s, Counted(s));
        } else {
          GoneStaysGone(next, rest, s.sid);
        }
      }
    }
  }

  lemma PassesOnly(subs: seq<Sub>, e: Event, s: Sub)
    requires e.Asked?
    ensures Lasts(subs, e, s)
  {
  }

  /** Only the SID and the times matter for how long a subscription lasts. */
  lemma {:induction false} SameTerms(subs: seq<Sub>, events: seq<Event>, s: Sub, x: Sub)
    requires x.sid == s.sid && x.since == s.since && x.timeout == s.timeout
    ensures LastsThrough(subs, events, x) <==> LastsThrough(subs, events, s)
    decreases |events|
  {
    if events != [] {
      SameTerms(Step(subs, events[0]), events[1..], s, x);
      hide Step, Left;
    }
  }

  /** The SEQ numbers of all messages to this SID in the run. */
  function Received(subs: seq<Sub>, events: seq<Event>, sid: string): seq<nat>
    decreases |events|
  {
    if events == [] then []
    else ReceivedIn(subs, events[0], sid) + Received(Step(subs, events[0]), events[1..], sid)
  }

  function ReceivedIn(subs: seq<Sub>, e: Event, sid: string): seq<nat> {
    match e
    case Asked(_, _, _) => []
    case Passed(clock, network) => NumbersTo(NotifyPass(subs, clock, network).1, sid)
  }

  lemma {:induction false} NothingReceived(subs: seq<Sub>, events: seq<Event>, sid: string)
    requires FreshSids(subs, events) && sid !in SidsOf(subs) && sid !in Grants(subs, events)
    ensures Received(subs, events, sid) == []
    decreases |events|
  {
    if events != [] {
      var next, rest := Step(subs, events[0]), events[1..];
      FreshAfterStep(subs, events);
      NotListedAfter(subs, events[0], sid);
      if events[0].Passed? {
        SweptWereListed(subs, events[0].clock, 0);
        NoNumbers(Sweep(subs, events[0].clock, 0), sid);
      }
      hide Step, FreshSids, SidsOf, GrantedBy, Sweep;
      NothingReceived(next, rest, sid);
    }
  }

  lemma NotListedAfter(subs: seq<Sub>, e: Event, sid: string)
    requires Distinct(SidsOf(subs)) && sid !in SidsOf(subs) && sid !in GrantedBy(subs, e)
    ensures sid !in SidsOf(Step(subs, e))
  {
    StepKeeps(subs, e);
    KeepIsFilter(SidsOf(subs), EndedBy(subs, e));
    hide SidsOf, Step, EndedBy, GrantedBy, Keep;
  }

  /**
   * The messages of one subscription are numbered without gap or repeat from
   * its count on, through renewals and whatever happens to others, until it
   * ends: 0, 1, 2, ... for a new one.
   */
  lemma {:induction false} MessagesAreNumbered(subs: seq<Sub>, events: seq<Event>, s: Sub, n: nat)
    requires FreshSids(subs, events) && s in subs && s.notifyCount == EventKey.NotifyCount(n)
    ensures NumberedFrom(Received(subs, events, s.sid), n)
    decreases |events|
  {
    hide Step, FreshSids, SidsOf, Grants, GrantedBy, ReceivedIn, EventKey.NotifyCount, NumberedFrom;
    ListedSid(subs, s);
    NothingNumbered(n);
    if events != [] {
      var next, rest := Step(subs, events[0]), events[1..];
      FreshAfterStep(subs, events);
      if s.sid !in SidsOf(next) {
        NothingReceived(next, rest, s.sid);
        LastNumbers(subs, events[0], s, n);
        assert ReceivedIn(subs, events[0], s.sid) + [] == ReceivedIn(subs, events[0], s.sid);
      } else {
        var x := StillListed(subs, events[0], s, n);
        var m := n + |ReceivedIn(subs, events[0], s.sid)|;
        MessagesAreNumbered(next, rest, x, m);
        LastNumbers(subs, events[0], s, n);
        NumberedConcat(ReceivedIn(subs, events[0], s.sid), Received(next, rest, s.sid), n);
      }
    }
  }

  ghost predicate NumberedFrom(numbers: seq<nat>, n: nat) {
    forall k | 0 <= k < |numbers| :: numbers[k] == EventKey.NotifyCount(n + k)
  }

  lemma NothingNumbered(n: nat)
    ensures NumberedFrom([], n)
  {
  }

  lemma NumberedConcat(a: seq<nat>, b: seq<nat>, n: nat)
    requires NumberedFrom(a, n) && NumberedFrom(b, n + |a|)
    ensures NumberedFrom(a + b, n)
  {
    hide EventKey.NotifyCount;
    forall k | 0 <= k < |a + b| ensures (a + b)[k] == EventKey.NotifyCount(n + k) {
      assert k >= |a| ==> b[k - |a|] == EventKey.NotifyCount(n + |a| + (k - |a|));
    }
  }

  /** One event sends one message to the entry at most, numbered by its count. */
  lemma LastNumbers(subs: seq<Sub>, e: Event, s: Sub, n: nat)
    requires Distinct(SidsOf(subs)) && s in subs && s.notifyCount == EventKey.NotifyCount(n)
    ensures NumberedFrom(ReceivedIn(subs, e, s.sid), n) && |ReceivedIn(subs, e, s.sid)| <= 1
  {
    hide NotifyPass, Left, NumbersTo, EventKey.NotifyCount;
    if e.Passed? {
      var p :| 0 <= p < |subs| && subs[p] == s;
      PassOnEntryAt(subs, p, e.clock, e.network);
    }
  }

  /** An entry that stays listed has been counted once for each message. */
  lemma StillListed(subs: seq<Sub>, e: Event, s: Sub, n: nat) returns (x: Sub)
    requires Distinct(SidsOf(subs)) && s in subs && s.sid in SidsOf(Step(subs, e)) && s.sid !in GrantedBy(subs, e)
    requires s.notifyCount == EventKey.NotifyCount(n)
    ensures x in Step(subs, e) && x.sid == s.sid
    ensures x.notifyCount == EventKey.NotifyCount(n + |ReceivedIn(subs, e, s.sid)|)
  {
    hide NotifyPass, Left, NumbersTo, EventKey.NotifyCount, Counted, SidsOf, IsAbout;
    if e.Asked? {
      RequestKeepsCount(subs, e, s);
      hide Step;
      x :| x in Step(subs, e) && x.sid == s.sid && x.notifyCount == s.notifyCount;
    } else {
      var p :| 0 <= p < |subs| && subs[p] == s;
      PassOnEntryAt(subs, p, e.clock, e.network);
      NextCount(s, n);
      x := Counted(s);
    }
  }

  lemma NextCount(s: Sub, n: nat)
    requires s.notifyCount == EventKey.NotifyCount(n)
    ensures Counted(s).notifyCount == EventKey.NotifyCount(n + 1) && Counted(s).sid == s.sid
  {
  }

  lemma RequestKeepsCount(subs: seq<Sub>, e: Event, s: Sub)
    requires e.Asked? && Distinct(SidsOf(subs)) && s in subs && s.sid in SidsOf(Step(subs, e))
    requires s.sid !in GrantedBy(subs, e)
    ensures exists x :: x in Step(subs, e) && x.sid == s.sid && x.notifyCount == s.notifyCount
  {
    RequestOnEntry(subs, e, s);
    if e.freshSid == s.sid {
      var p :| 0 <= p < |subs| && subs[p] == s;
      hide SidOfHeader, SidToken, GrantedTimeout, DeliveryUrl;
      RequestOnEntry(subs, e.(freshSid := s.sid + "x"), s);
    }
  }
}
