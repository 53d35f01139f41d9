/**
 * The three enumerations of a hosted device tree: alive announcements, byebye
 * announcements and answers to M-SEARCH.
 */
module Enumeration {
  import opened Sequences
  import opened Text

  /**
   * A device that this program hosts. `isRoot` is whether it has a parsed
   * description document of its own, which is what the library tests.
   */
  datatype Hosted = Hosted(isRoot: bool, udn: string, deviceType: string, services: seq<string>, children: seq<Hosted>)

  /** The NT (or ST) and USN headers of one message. */
  datatype Line = Line(nt: string, usn: string)

  const ALL_DEVICE := "ssdp:all"
  const ROOT_DEVICE := "upnp:rootdevice"
  const UUID_DEVICE := "uuid"
  const URN := "urn"

  // ---------------------------------------------------------------------
  // What a device tree advertises
  // ---------------------------------------------------------------------

  function Preorder(d: Hosted): seq<Hosted>
    decreases d, 1
  {
    [d] + PreorderAll(d.children)
  }

  function PreorderAll(ds: seq<Hosted>): seq<Hosted>
    decreases ds, 0
  {
    if ds == [] then [] else Preorder(ds[0]) + PreorderAll(ds[1..])
  }

  function RootLine(d: Hosted): Line {
    Line(ROOT_DEVICE, d.udn + "::" + ROOT_DEVICE)
  }

  function TypeLine(d: Hosted): Line {
    Line(d.deviceType, d.udn + "::" + d.deviceType)
  }

  function UuidLine(d: Hosted): Line {
    Line(d.udn, d.udn)
  }

  function ServiceLine(udn: string, serviceType: string): Line {
    Line(serviceType, udn + "::" + serviceType)
  }

  function ServiceLines(udn: string, services: seq<string>): seq<Line> {
    if services == [] then [] else [ServiceLine(udn, services[0])] + ServiceLines(udn, services[1..])
  }

  function LinesOf(d: Hosted): seq<Line> {
    (if d.isRoot then [RootLine(d)] else []) + [TypeLine(d), UuidLine(d)] + ServiceLines(d.udn, d.services)
  }

  /** The messages of section 1.1.2 of UPnP Device Architecture 1.0 for each device of the list. */
  function AdvertisedBy(ds: seq<Hosted>): seq<Line> {
    if ds == [] then [] else LinesOf(ds[0]) + AdvertisedBy(ds[1..])
  }

  function Advertised(d: Hosted): seq<Line> {
    AdvertisedBy(Preorder(d))
  }

  lemma {:induction false} AdvertisedByConcat(a: seq<Hosted>, b: seq<Hosted>)
    ensures AdvertisedBy(a + b) == AdvertisedBy(a) + AdvertisedBy(b)
  {
    hide LinesOf;
    if a == [] {
      assert a + b == b;
    } else {
      ConcatTail(a, b);
      AdvertisedByConcat(a[1..], b);
      ConcatAssociates(LinesOf(a[0]), AdvertisedBy(a[1..]), AdvertisedBy(b));
    }
  }

  /** The lines of one device: what it is, and its UDN in every USN. */
  ghost predicate IsLineOf(line: Line, d: Hosted) {
    || (d.isRoot && line == Line("upnp:rootdevice", d.udn + "::upnp:rootdevice"))
    || line == Line(d.deviceType, d.udn + "::" + d.deviceType)
    || line == Line(d.udn, d.udn)
    || exists t | t in d.services :: line == Line(t, d.udn + "::" + t)
  }

  lemma {:induction false} ServiceLineIff(udn: string, services: seq<string>, line: Line)
    ensures line in ServiceLines(udn, services) <==> exists t | t in services :: line == Line(t, udn + "::" + t)
  {
    if services != [] {
      ServiceLineIff(udn, services[1..], line);
      assert services == [services[0]] + services[1..];
    }
  }

  lemma LineOfIff(d: Hosted, line: Line)
    ensures line in LinesOf(d) <==> IsLineOf(line, d)
  {
    ServiceLineIff(d.udn, d.services, line);
    assert "::" + "upnp:rootdevice" == "::upnp:rootdevice";
    assert d.udn + "::" + ROOT_DEVICE == d.udn + "::upnp:rootdevice";
    hide ServiceLines;
  }

  lemma {:induction false} AdvertisedByIff(ds: seq<Hosted>, line: Line)
    ensures line in AdvertisedBy(ds) <==> exists x | x in ds :: IsLineOf(line, x)
  {
    hide IsLineOf, LinesOf;
    if ds != [] {
      LineOfIff(ds[0], line);
      AdvertisedByIff(ds[1..], line);
      assert ds == [ds[0]] + ds[1..];
    }
  }

  /** Exactly these (NT, USN) pairs are advertised: those of the devices of the tree, each under its own UDN. */
  lemma AdvertisedIff(dev: Hosted, line: Line)
    ensures line in Advertised(dev) <==> exists x | x in Preorder(dev) :: IsLineOf(line, x)
  {
    AdvertisedByIff(Preorder(dev), line);
  }

  /** The lines of the device itself come first: as a root, its type, its UDN, its services. */
  lemma LinesInOrder(dev: Hosted)
    ensures var n := if dev.isRoot then 1 else 0;
            && |Advertised(dev)| >= n + 2 + |dev.services|
            && (dev.isRoot ==> Advertised(dev)[0].nt == "upnp:rootdevice")
            && Advertised(dev)[n].nt == dev.deviceType && Advertised(dev)[n + 1].nt == dev.udn
            && forall i | 0 <= i < |dev.services| :: Advertised(dev)[n + 2 + i].nt == dev.services[i]
  {
    OwnAndChildLines(dev);
    ServiceLineAt(dev.udn, dev.services);
    hide ServiceLines, AdvertisedBy, Preorder, PreorderAll, Advertised;
  }

  lemma {:induction false} ServiceLineAt(udn: string, services: seq<string>)
    ensures |ServiceLines(udn, services)| == |services|
    ensures forall i | 0 <= i < |services| :: ServiceLines(udn, services)[i].nt == services[i]
  {
    if services != [] {
      ServiceLineAt(udn, services[1..]);
    }
  }

  // ---------------------------------------------------------------------
  // Alive and byebye
  // ---------------------------------------------------------------------

  /** `mupnp_device_getnotifydevicent` */
  function NotifyDeviceNt(d: Hosted): string {
    if d.isRoot then ROOT_DEVICE else d.udn
  }

  /** `mupnp_device_getnotifydeviceusn` */
  function NotifyDeviceUsn(d: Hosted): string {
    if d.isRoot then d.udn + "::" + ROOT_DEVICE else d.udn
  }

  lemma AdvertisedAmongStep(ds: seq<Hosted>, j: nat)
    requires j < |ds|
    ensures AdvertisedBy(PreorderAll(ds[j..])) == Advertised(ds[j]) + AdvertisedBy(PreorderAll(ds[j + 1..]))
  {
    assert ds[j..][1..] == ds[j + 1..];
    AdvertisedByConcat(Preorder(ds[j]), PreorderAll(ds[j + 1..]));
  }

  /** One more service line. */
  lemma ServiceLinesStep(sent: seq<Line>, udn: string, services: seq<string>, i: nat)
    requires i < |services|
    ensures sent + ServiceLines(udn, services[i..])
         == sent + [ServiceLine(udn, services[i])] + ServiceLines(udn, services[i + 1..])
  {
    assert services[i..][1..] == services[i + 1..];
  }

  /** The lines of one more embedded device. */
  lemma ChildLinesStep(sent: seq<Line>, ds: seq<Hosted>, j: nat)
    requires j < |ds|
    ensures sent + AdvertisedBy(PreorderAll(ds[j..]))
         == sent + Advertised(ds[j]) + AdvertisedBy(PreorderAll(ds[j + 1..]))
  {
    AdvertisedAmongStep(ds, j);
  }

  lemma OwnAndChildLines(d: Hosted)
    ensures Advertised(d) == LinesOf(d) + AdvertisedBy(PreorderAll(d.children))
  {
    assert Preorder(d)[1..] == PreorderAll(d.children);
  }

  lemma NoMoreLines(sent: seq<Line>, udn: string, services: seq<string>, ds: seq<Hosted>)
    ensures services == [] ==> sent + ServiceLines(udn, services) == sent
    ensures ds == [] ==> sent + AdvertisedBy(PreorderAll(ds)) == sent
  {
  }

  /** The NT and USN headers of the messages that `mupnp_device_announcefrom` sends, in order. */
  method AnnounceFrom(dev: Hosted) returns (sent: seq<Line>)
    ensures sent == Advertised(dev)
    decreases dev
  {
    hide ServiceLines, AdvertisedBy, PreorderAll, Preorder, Advertised;
    sent := [];
    if dev.isRoot {
      sent := sent + [Line(NotifyDeviceNt(dev), NotifyDeviceUsn(dev))];
    }
    sent := sent + [Line(dev.deviceType, dev.udn + "::" + dev.deviceType)];
    sent := sent + [Line(dev.udn, dev.udn)];

    var i := 0;
    assert dev.services[0..] == dev.services;
    while i < |dev.services|
      invariant 0 <= i <= |dev.services|
      invariant sent + ServiceLines(dev.udn, dev.services[i..]) == LinesOf(dev)
    {
      ServiceLinesStep(sent, dev.udn, dev.services, i);
      sent := sent + [Line(dev.services[i], dev.udn + "::" + dev.services[i])];
      i := i + 1;
    }

    NoMoreLines(sent, dev.udn, dev.services[i..], []);

    OwnAndChildLines(dev);
    var j := 0;
    assert dev.children[0..] == dev.children;
    while j < |dev.children|
      invariant 0 <= j <= |dev.children|
      invariant sent + AdvertisedBy(PreorderAll(dev.children[j..])) == Advertised(dev)
    {
      ChildLinesStep(sent, dev.children, j);
      var more := AnnounceFrom(dev.children[j]);
      sent := sent + more;
      j := j + 1;
    }
    NoMoreLines(sent, dev.udn, [], dev.children[j..]);
  }

  /** The NT and USN headers of the messages that `mupnp_device_byebyefrom` sends, in order. */
  method ByebyeFrom(dev: Hosted) returns (sent: seq<Line>)
    ensures sent == Advertised(dev)
    decreases dev
  {
    hide ServiceLines, AdvertisedBy, PreorderAll, Preorder, Advertised;
    sent := [];
    if dev.isRoot {
      sent := sent + [Line(NotifyDeviceNt(dev), NotifyDeviceUsn(dev))];
    }
    sent := sent + [Line(dev.deviceType, dev.udn + "::" + dev.deviceType)];
    sent := sent + [Line(dev.udn, dev.udn)];

    var i := 0;
    assert dev.services[0..] == dev.services;
    while i < |dev.services|
      invariant 0 <= i <= |dev.services|
      invariant sent + ServiceLines(dev.udn, dev.services[i..]) == LinesOf(dev)
    {
      ServiceLinesStep(sent, dev.udn, dev.services, i);
      sent := sent + [Line(dev.services[i], dev.udn + "::" + dev.services[i])];
      i := i + 1;
    }

    NoMoreLines(sent, dev.udn, dev.services[i..], []);

    OwnAndChildLines(dev);
    var j := 0;
    assert dev.children[0..] == dev.children;
    while j < |dev.children|
      invariant 0 <= j <= |dev.children|
      invariant sent + AdvertisedBy(PreorderAll(dev.children[j..])) == Advertised(dev)
    {
      ChildLinesStep(sent, dev.children, j);
      var more := ByebyeFrom(dev.children[j]);
      sent := sent + more;
      j := j + 1;
    }
    NoMoreLines(sent, dev.udn, [], dev.children[j..]);
  }

  // ---------------------------------------------------------------------
  // How many messages
  // ---------------------------------------------------------------------

  function RootsIn(ds: seq<Hosted>): nat {
    if ds == [] then 0 else (if ds[0].isRoot then 1 else 0) + RootsIn(ds[1..])
  }

  function ServicesIn(ds: seq<Hosted>): nat {
    if ds == [] then 0 else |ds[0].services| + ServicesIn(ds[1..])
  }

  lemma {:induction false} ServiceLinesLength(udn: string, services: seq<string>)
    ensures |ServiceLines(udn, services)| == |services|
  {
    if services != [] {
      ServiceLinesLength(udn, services[1..]);
    }
  }

  lemma {:induction false} AdvertisedByLength(ds: seq<Hosted>)
    ensures |AdvertisedBy(ds)| == 2 * |ds| + RootsIn(ds) + ServicesIn(ds)
  {
    if ds != [] {
      ServiceLinesLength(ds[0].udn, ds[0].services);
      AdvertisedByLength(ds[1..]);
    }
  }

  lemma {:induction false} NoRoots(ds: seq<Hosted>)
    requires forall x | x in ds :: !x.isRoot
    ensures RootsIn(ds) == 0
  {
    if ds != [] {
      NoRoots(ds[1..]);
    }
  }

  /** 3 + 2d + k messages for a root with d embedded devices and k services in all. */
  lemma MessageCount(root: Hosted)
    requires root.isRoot && forall x | x in PreorderAll(root.children) :: !x.isRoot
    ensures |Advertised(root)| == 3 + 2 * |PreorderAll(root.children)| + ServicesIn(Preorder(root))
  {
    AdvertisedByLength(Preorder(root));
    NoRoots(PreorderAll(root.children));
    assert Preorder(root)[1..] == PreorderAll(root.children);
  }

  // ---------------------------------------------------------------------
  // Search answers
  // ---------------------------------------------------------------------

  function ServiceAnswer(udn: string, serviceType: string, st: string): seq<Line> {
    if Contains(st, ALL_DEVICE) || (Contains(st, URN) && st == serviceType) then [ServiceLine(udn, serviceType)] else []
  }

  function ServiceAnswers(udn: string, services: seq<string>, st: string): seq<Line> {
    if services == [] then []
    else ServiceAnswer(udn, services[0], st) + ServiceAnswers(udn, services[1..], st)
  }

  function OwnAnswers(d: Hosted, st: string): seq<Line> {
    if Contains(st, ALL_DEVICE) then (if d.isRoot then [RootLine(d)] else []) + [TypeLine(d), UuidLine(d)]
    else if Contains(st, ROOT_DEVICE) then (if d.isRoot then [RootLine(d)] else [])
    else if Contains(st, UUID_DEVICE) then (if st == d.udn then [UuidLine(d)] else [])
    else if Contains(st, URN) then (if st == d.deviceType then [TypeLine(d)] else [])
    else []
  }

  function AnswersOf(d: Hosted, st: string): seq<Line> {
    OwnAnswers(d, st) + ServiceAnswers(d.udn, d.services, st)
  }

  function AnswersBy(ds: seq<Hosted>, st: string): seq<Line> {
    if ds == [] then [] else AnswersOf(ds[0], st) + AnswersBy(ds[1..], st)
  }

  lemma {:induction false} AnswersByConcat(a: seq<Hosted>, b: seq<Hosted>, st: string)
    ensures AnswersBy(a + b, st) == AnswersBy(a, st) + AnswersBy(b, st)
  {
    hide AnswersOf;
    if a == [] {
      assert a + b == b;
    } else {
      ConcatTail(a, b);
      AnswersByConcat(a[1..], b, st);
      ConcatAssociates(AnswersOf(a[0], st), AnswersBy(a[1..], st), AnswersBy(b, st));
    }
  }

  lemma AnswersAmongStep(ds: seq<Hosted>, j: nat, st: string)
    requires j < |ds|
    ensures AnswersBy(PreorderAll(ds[j..]), st)
         == AnswersBy(Preorder(ds[j]), st) + AnswersBy(PreorderAll(ds[j + 1..]), st)
  {
    assert ds[j..][1..] == ds[j + 1..];
    AnswersByConcat(Preorder(ds[j]), PreorderAll(ds[j + 1..]), st);
  }

  /** `mupnp_service_ssdpmessagereceived`; the answer, if there is one. */
  method AnswerForService(udn: string, serviceType: string, st: string) returns (sent: seq<Line>)
    ensures sent == ServiceAnswer(udn, serviceType, st)
  {
    sent := [];
    if st == "" {
      return;
    }
    if Contains(st, ALL_DEVICE) {
      sent := [Line(serviceType, udn + "::" + serviceType)];
    } else if Contains(st, URN) {
      if st == serviceType {
        sent := [Line(serviceType, udn + "::" + serviceType)];
      }
    }
  }

  /** The part of `mupnp_device_ssdpmessagereceived` that answers for the device itself. */
  method AnswerForDevice(dev: Hosted, st: string) returns (sent: seq<Line>)
    ensures sent == OwnAnswers(dev, st)
  {
    sent := [];
    if Contains(st, ALL_DEVICE) {
      if dev.isRoot {
        sent := sent + [Line(NotifyDeviceNt(dev), NotifyDeviceUsn(dev))];
      }
      sent := sent + [Line(dev.deviceType, dev.udn + "::" + dev.deviceType)];
      sent := sent + [Line(dev.udn, dev.udn)];
    } else if Contains(st, ROOT_DEVICE) {
      if dev.isRoot {
        sent := sent + [Line(ROOT_DEVICE, NotifyDeviceUsn(dev))];
      }
    } else if Contains(st, UUID_DEVICE) {
      if st == dev.udn {
        sent := sent + [Line(dev.udn, dev.udn)];
      }
    } else if Contains(st, URN) {
      if st == dev.deviceType {
        sent := sent + [Line(dev.deviceType, dev.udn + "::" + dev.deviceType)];
      }
    }
  }

  /** The (ST, USN) answers of `mupnp_device_ssdpmessagereceived` once a search has passed the checks. */
  method AnswerSearch(dev: Hosted, st: string) returns (sent: seq<Line>)
    ensures sent == AnswersBy(Preorder(dev), st)
    decreases dev
  {
    hide OwnAnswers, Contains, ServiceAnswer;
    sent := AnswerForDevice(dev, st);

    var i := 0;
    assert dev.services[0..] == dev.services;
    while i < |dev.services|
      invariant 0 <= i <= |dev.services|
      invariant sent + ServiceAnswers(dev.udn, dev.services[i..], st) == AnswersOf(dev, st)
    {
      assert dev.services[i..][1..] == dev.services[i + 1..];
      var answer := AnswerForService(dev.udn, dev.services[i], st);
      sent := sent + answer;
      i := i + 1;
    }

    var j := 0;
    assert dev.children[0..] == dev.children;
    assert Preorder(dev)[1..] == PreorderAll(dev.children);
    while j < |dev.children|
      invariant 0 <= j <= |dev.children|
      invariant sent + AnswersBy(PreorderAll(dev.children[j..]), st) == AnswersBy(Preorder(dev), st)
    {
      AnswersAmongStep(dev.children, j, st);
      var more := AnswerSearch(dev.children[j], st);
      sent := sent + more;
      j := j + 1;
    }
  }

  // ---------------------------------------------------------------------
  // Search answers against announcements
  // ---------------------------------------------------------------------

  /** An ssdp:all search is answered with exactly the advertised lines. */
  lemma {:induction false} AllAnswersAreAdvertised(ds: seq<Hosted>, st: string)
    requires Contains(st, ALL_DEVICE)
    ensures AnswersBy(ds, st) == AdvertisedBy(ds)
  {
    hide Contains;
    if ds != [] {
      AllServicesAnswer(ds[0].udn, ds[0].services, st);
      AllAnswersAreAdvertised(ds[1..], st);
      assert AnswersOf(ds[0], st) == LinesOf(ds[0]);
    }
  }

  lemma {:induction false} AllServicesAnswer(udn: string, services: seq<string>, st: string)
    requires Contains(st, ALL_DEVICE)
    ensures ServiceAnswers(udn, services, st) == ServiceLines(udn, services)
  {
    hide Contains;
    if services != [] {
      AllServicesAnswer(udn, services[1..], st);
    }
  }

  function IfMatching(line: Line, st: string): seq<Line> {
    if line.nt == st then [line] else []
  }

  /** The lines with this NT. */
  function Matching(lines: seq<Line>, st: string): seq<Line> {
    if lines == [] then [] else IfMatching(lines[0], st) + Matching(lines[1..], st)
  }

  /** The filter keeps what matches, and in particular nothing else. */
  lemma {:induction false} MatchingIsFilter(lines: seq<Line>, st: string)
    ensures forall l :: l in Matching(lines, st) <==> l in lines && l.nt == st
  {
    if lines != [] {
      MatchingIsFilter(lines[1..], st);
      assert lines == [lines[0]] + lines[1..];
    }
  }

  lemma {:induction false} MatchingConcat(a: seq<Line>, b: seq<Line>, st: string)
    ensures Matching(a + b, st) == Matching(a, st) + Matching(b, st)
  {
    hide IfMatching;
    if a == [] {
      assert a + b == b;
    } else {
      ConcatTail(a, b);
      MatchingConcat(a[1..], b, st);
      ConcatAssociates(IfMatching(a[0], st), Matching(a[1..], st), Matching(b, st));
    }
  }

  /** The services of one device answer like their advertised lines. */
  predicate ServicesFit(services: seq<string>, st: string) {
    if Contains(st, ALL_DEVICE) then forall t | t in services :: t == st
    else st in services ==> Contains(st, URN)
  }

  /** The device's own lines are answered like the advertised ones: the target's kind must match what it names. */
  predicate DeviceFits(d: Hosted, st: string) {
    if Contains(st, ALL_DEVICE) then !d.isRoot && d.deviceType == st && d.udn == st
    else if Contains(st, ROOT_DEVICE) then (d.isRoot ==> st == ROOT_DEVICE) && d.deviceType != st && d.udn != st
    else if Contains(st, UUID_DEVICE) then d.deviceType != st
    else if Contains(st, URN) then d.udn != st
    else d.deviceType != st && d.udn != st
  }

  predicate Fits(d: Hosted, st: string) {
    DeviceFits(d, st) && ServicesFit(d.services, st)
  }

  /** How answers compare with the lines that match: an ssdp:all answer can only be longer, any other only shorter. */
  predicate Comparable(answers: seq<Line>, matching: seq<Line>, st: string, fits: bool) {
    && (fits ==> answers == matching)
    && (Contains(st, ALL_DEVICE) ==> |matching| <= |answers|)
    && (!Contains(st, ALL_DEVICE) && (forall l | l in answers :: l.nt == st) ==> |answers| <= |matching|)
    && ((Contains(st, ALL_DEVICE) || forall l | l in answers :: l.nt == st) && |answers| == |matching| ==> fits)
  }

  lemma ComparableConcat(a1: seq<Line>, m1: seq<Line>, f1: bool, a2: seq<Line>, m2: seq<Line>, f2: bool, st: string)
    requires Comparable(a1, m1, st, f1) && Comparable(a2, m2, st, f2)
    ensures Comparable(a1 + a2, m1 + m2, st, f1 && f2)
  {
    hide Contains;
    if forall l | l in a1 + a2 :: l.nt == st {
      assert forall l | l in a1 :: l in a1 + a2;
      assert forall l | l in a2 :: l in a1 + a2;
    }
  }

  lemma ServiceCompares(udn: string, serviceType: string, st: string)
    ensures Comparable(ServiceAnswer(udn, serviceType, st), IfMatching(ServiceLine(udn, serviceType), st), st,
                       ServicesFit([serviceType], st))
  {
    hide Contains;
    assert Contains(st, ALL_DEVICE) ==> (ServicesFit([serviceType], st) <==> serviceType in [serviceType] && serviceType == st);
  }

  lemma ServicesFitCons(services: seq<string>, st: string)
    requires services != []
    ensures ServicesFit(services, st) == (ServicesFit([services[0]], st) && ServicesFit(services[1..], st))
  {
    hide Contains;
    assert services == [services[0]] + services[1..];
    assert services[0] in services && forall t | t in services[1..] :: t in services;
    assert services[0] in [services[0]];
  }

  lemma {:induction false} ServicesCompare(udn: string, services: seq<string>, st: string)
    ensures Comparable(ServiceAnswers(udn, services, st), Matching(ServiceLines(udn, services), st), st,
                       ServicesFit(services, st))
  {
    hide Contains;
    if services != [] {
      var rest := services[1..];
      ServicesCompare(udn, rest, st);
      ServiceCompares(udn, services[0], st);
      ServicesFitCons(services, st);
      assert ServiceLines(udn, services)[1..] == ServiceLines(udn, rest);
      hide Comparable, ServicesFit, IfMatching;
      ComparableConcat(ServiceAnswer(udn, services[0], st), IfMatching(ServiceLine(udn, services[0]), st),
                       ServicesFit([services[0]], st),
                       ServiceAnswers(udn, rest, st), Matching(ServiceLines(udn, rest), st), ServicesFit(rest, st), st);
    }
  }

  lemma AbsentCharacter(haystack: string, needle: string)
    requires needle != "" && needle[0] !in haystack
    ensures !Contains(haystack, needle)
  {
    forall i | 0 <= i <= |haystack| - |needle| ensures !OccursAt(haystack, needle, i) {
      assert haystack[i..i + |needle|][0] == haystack[i];
    }
  }

  lemma RootTargetIsNotAll()
    ensures !Contains(ROOT_DEVICE, ALL_DEVICE) && Contains(ROOT_DEVICE, ROOT_DEVICE)
  {
    assert OccursAt(ROOT_DEVICE, ROOT_DEVICE, 0);
    AbsentCharacter(ROOT_DEVICE, ALL_DEVICE);
  }

  function OwnLines(d: Hosted): seq<Line> {
    (if d.isRoot then [RootLine(d)] else []) + [TypeLine(d), UuidLine(d)]
  }

  lemma OwnLinesMatching(d: Hosted, st: string)
    ensures Matching(OwnLines(d), st)
         == (if d.isRoot && st == ROOT_DEVICE then [RootLine(d)] else [])
            + (if st == d.deviceType then [TypeLine(d)] else []) + (if st == d.udn then [UuidLine(d)] else [])
  {
    MatchingConcat(if d.isRoot then [RootLine(d)] else [], [TypeLine(d), UuidLine(d)], st);
    MatchingConcat([TypeLine(d)], [UuidLine(d)], st);
    assert [TypeLine(d)] + [UuidLine(d)] == [TypeLine(d), UuidLine(d)];
  }

  lemma OwnCompare(d: Hosted, st: string)
    ensures Comparable(OwnAnswers(d, st), Matching(OwnLines(d), st), st, DeviceFits(d, st))
  {
    RootTargetIsNotAll();
    OwnLinesMatching(d, st);
    hide Contains, Matching, OwnLines;
  }

  /** One service answers with its advertised line, if that matches the target and nothing else, exactly if the target fits it. */
  lemma ServiceAnswersIff(udn: string, serviceType: string, st: string)
    ensures ServiceAnswer(udn, serviceType, st) == Matching([ServiceLine(udn, serviceType)], st)
       <==> ServicesFit([serviceType], st)
  {
    ServiceCompares(udn, serviceType, st);
    var line := ServiceLine(udn, serviceType);
    assert [line][1..] == [] && Matching([line], st) == IfMatching(line, st);
    hide Contains;
  }

  /** One device answers with those of its own advertised lines that match the target exactly if the target fits it. */
  lemma OwnAnswersIff(d: Hosted, st: string)
    ensures OwnAnswers(d, st) == Matching(OwnLines(d), st) <==> DeviceFits(d, st)
  {
    OwnCompare(d, st);
    MatchingIsFilter(OwnLines(d), st);
    hide Contains, Matching, OwnLines, OwnAnswers;
  }

  lemma DeviceCompares(d: Hosted, st: string)
    ensures Comparable(AnswersOf(d, st), Matching(LinesOf(d), st), st, Fits(d, st))
  {
    OwnCompare(d, st);
    ServicesCompare(d.udn, d.services, st);
    MatchingConcat(OwnLines(d), ServiceLines(d.udn, d.services), st);
    hide Contains, Matching, Comparable, DeviceFits, ServicesFit, OwnAnswers, ServiceAnswers;
    ComparableConcat(OwnAnswers(d, st), Matching(OwnLines(d), st), DeviceFits(d, st),
                     ServiceAnswers(d.udn, d.services, st), Matching(ServiceLines(d.udn, d.services), st),
                     ServicesFit(d.services, st), st);
  }

  predicate AllFit(ds: seq<Hosted>, st: string) {
    forall x | x in ds :: Fits(x, st)
  }

  lemma {:induction false} DevicesCompare(ds: seq<Hosted>, st: string)
    ensures Comparable(AnswersBy(ds, st), Matching(AdvertisedBy(ds), st), st, AllFit(ds, st))
  {
    if ds != [] {
      DeviceCompares(ds[0], st);
      DevicesCompare(ds[1..], st);
      MatchingConcat(LinesOf(ds[0]), AdvertisedBy(ds[1..]), st);
      assert AllFit(ds, st) == (Fits(ds[0], st) && AllFit(ds[1..], st));
      hide Contains, Matching, Comparable, Fits, AllFit, AnswersOf, LinesOf;
      ComparableConcat(AnswersOf(ds[0], st), Matching(LinesOf(ds[0]), st), Fits(ds[0], st),
                       AnswersBy(ds[1..], st), Matching(AdvertisedBy(ds[1..]), st), AllFit(ds[1..], st), st);
    }
  }

  /**
   * A search is answered with exactly the advertised lines whose NT is the
   * target, in the same order, if and only if the target names each device's
   * things only in the way its kind allows.
   */
  lemma AnswersAreMatchingLinesIff(dev: Hosted, st: string)
    ensures AnswersBy(Preorder(dev), st) == Matching(Advertised(dev), st) <==> AllFit(Preorder(dev), st)
  {
    DevicesCompare(Preorder(dev), st);
    MatchingIsFilter(Advertised(dev), st);
    hide Contains, Matching, AnswersBy, AllFit;
  }

  /** The usual targets fit: the root target, a uuid that is no type, and a type that is no UDN. */
  lemma UsualTargetsFit(dev: Hosted, st: string)
    requires !Contains(st, "ssdp:all")
    requires || (st == "upnp:rootdevice"
                 && forall x | x in Preorder(dev) :: x.udn != st && x.deviceType != st && st !in x.services)
             || (!Contains(st, "upnp:rootdevice") && Contains(st, "uuid")
                 && forall x | x in Preorder(dev) :: x.deviceType != st && st !in x.services)
             || (!Contains(st, "upnp:rootdevice") && !Contains(st, "uuid") && Contains(st, "urn")
                 && forall x | x in Preorder(dev) :: x.udn != st)
    ensures AnswersBy(Preorder(dev), st) == Matching(Advertised(dev), st)
  {
    RootTargetIsNotAll();
    AnswersAreMatchingLinesIff(dev, st);
    hide Contains;
  }

  // ---------------------------------------------------------------------
  // Targets that do not fit
  // ---------------------------------------------------------------------

  /** A device type that contains "uuid" is advertised, but a search for it is not answered. */
  lemma UuidTypeIsNotAnswered()
    ensures exists d: Hosted ::
              && AnswersBy(Preorder(d), d.deviceType) == []
              && TypeLine(d) in Matching(Advertised(d), d.deviceType)
  {
    var st := "urn:uuid:1";
    var d := Hosted(true, "u", st, [], []);
    AbsentCharacter(st, ALL_DEVICE);
    assert !Contains(st, ROOT_DEVICE);
    assert OccursAt(st, UUID_DEVICE, 4);
    assert st != "u";
    assert Preorder(d) == [d] && [d][1..] == [];
    assert OwnAnswers(d, st) == [] && ServiceAnswers(d.udn, [], st) == [];
    assert LinesOf(d)[1] == TypeLine(d) && Advertised(d)[1] == TypeLine(d);
    MatchingIsFilter(Advertised(d), st);
  }

  /** A target that only begins with "upnp:rootdevice" is answered for, although no line of it is advertised. */
  lemma LongerRootTargetIsAnswered()
    ensures exists d: Hosted, st: string ::
              && RootLine(d) in AnswersBy(Preorder(d), st)
              && Matching(Advertised(d), st) == []
  {
    var st := "upnp:rootdevice2";
    var d := Hosted(true, "u", "t", [], []);
    AbsentCharacter(st, ALL_DEVICE);
    assert st[0..15] == ROOT_DEVICE;
    assert OccursAt(st, ROOT_DEVICE, 0);
    assert |st| != |ROOT_DEVICE| && |st| != |"u"| && |st| != |"t"|;
    assert Preorder(d) == [d] && [d][1..] == [];
    assert OwnAnswers(d, st) == [RootLine(d)];
    assert AnswersBy(Preorder(d), st)[0] == RootLine(d);
    assert Advertised(d) == OwnLines(d);
    OwnLinesMatching(d, st);
  }
}
