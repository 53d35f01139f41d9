/** The device side of eventing: the subscriber list of a service. */
module Subscribers {
  import opened Sequences
  import opened Text
  import EventKey

  const INFINITE := -1
  const MAX_TIMEOUT := 300
  const NT_EVENT := "upnp:event"

  /** `mUpnpSubscriber` */
  datatype Sub = Sub(sid: string, callback: string, timeout: int, since: int, notifyCount: nat)

  // ---------------------------------------------------------------------
  // Timeouts
  // ---------------------------------------------------------------------

  predicate IsDigit(c: char) {
    '0' <= c <= '9'
  }

  function DigitsValue(s: string, acc: int): int {
    if s == "" || !IsDigit(s[0]) then acc
    else DigitsValue(s[1..], 10 * acc + (s[0] as int - '0' as int))
  }

  /** `mupnp_str2long`: blanks, a sign, digits; anything after them is ignored. */
  function StrToLong(s: string): int {
    if s == "" then 0
    else if s[0] == ' ' || '\t' <= s[0] <= '\r' then StrToLong(s[1..])
    else if s[0] == '-' then -DigitsValue(s[1..], 0)
    else if s[0] == '+' then DigitsValue(s[1..], 0)
    else DigitsValue(s, 0)
  }

  function AfterMinus(s: string): CString {
    if s == "" then None else if s[0] == '-' then Some(s[1..]) else AfterMinus(s[1..])
  }

  /** `mupnp_event_subscription_gettimeout` on the TIMEOUT header. */
  function GetTimeout(header: CString): int {
    if header.None? || AfterMinus(header.value).None? then INFINITE
    else
      var timeout := StrToLong(AfterMinus(header.value).value);
      if timeout == 0 then INFINITE else if timeout < 0 then -timeout else timeout
  }

  /** The timeout that a subscription gets, and the bounds it always has. */
  function GrantedTimeout(header: CString): (t: int)
    ensures 1 <= t <= 300
  {
    var timeout := GetTimeout(header);
    if timeout > MAX_TIMEOUT || timeout == INFINITE then MAX_TIMEOUT else timeout
  }

  /** A number as it is written in a header. */
  function DecimalText(n: nat): (s: string)
    ensures s != "" && forall i | 0 <= i < |s| :: IsDigit(s[i])
  {
    if n < 10 then [('0' as int + n) as char] else DecimalText(n / 10) + [('0' as int + n % 10) as char]
  }

  lemma {:induction false} DigitsValueSnoc(s: string, c: char, acc: int)
    requires IsDigit(c) && forall i | 0 <= i < |s| :: IsDigit(s[i])
    ensures DigitsValue(s + [c], acc) == 10 * DigitsValue(s, acc) + (c as int - '0' as int)
  {
    if s == "" {
      assert s + [c] == [c] && [c][1..] == "";
    } else {
      DigitsValueSnoc(s[1..], c, 10 * acc + (s[0] as int - '0' as int));
      assert (s + [c])[1..] == s[1..] + [c];
    }
  }

  lemma {:induction false} DigitsReadBack(n: nat)
    ensures DigitsValue(DecimalText(n), 0) == n
  {
    if n < 10 {
      assert DecimalText(n)[1..] == "";
    } else {
      DigitsReadBack(n / 10);
      DigitsValueSnoc(DecimalText(n / 10), ('0' as int + n % 10) as char, 0);
    }
  }

  lemma {:induction false} AfterMinusAt(s: string, i: nat)
    requires i < |s| && s[i] == '-' && '-' !in s[..i]
    ensures AfterMinus(s) == Some(s[i + 1..])
  {
    if i > 0 {
      assert s[..i][0] == s[0] && s[1..][..i - 1] == s[..i][1..];
      AfterMinusAt(s[1..], i - 1);
      assert s[1..][i..] == s[i + 1..];
    }
  }

  predicate IsBlankChar(c: char) {
    c == ' ' || '\t' <= c <= '\r'
  }

  lemma {:induction false} DigitsEnd(s: string, rest: string, acc: int)
    requires (forall i | 0 <= i < |s| :: IsDigit(s[i])) && (rest == "" || !IsDigit(rest[0]))
    ensures DigitsValue(s + rest, acc) == DigitsValue(s, acc)
  {
    if s == "" {
      assert s + rest == rest;
    } else {
      DigitsEnd(s[1..], rest, 10 * acc + (s[0] as int - '0' as int));
      assert (s + rest)[1..] == s[1..] + rest;
    }
  }

  lemma {:induction false} BlanksAreSkipped(blanks: string, text: string)
    requires forall i | 0 <= i < |blanks| :: IsBlankChar(blanks[i])
    ensures StrToLong(blanks + text) == StrToLong(text)
  {
    if blanks == "" {
      assert blanks + text == text;
    } else {
      BlanksAreSkipped(blanks[1..], text);
      assert (blanks + text)[1..] == blanks[1..] + text;
    }
  }

  lemma UnsignedIsRead(n: nat, rest: string)
    requires rest == "" || !IsDigit(rest[0])
    ensures StrToLong(DecimalText(n) + rest) == n == DigitsValue(DecimalText(n) + rest, 0)
  {
    hide DecimalText, DigitsValue;
    var text := DecimalText(n);
    DigitsReadBack(n);
    DigitsEnd(text, rest, 0);
    assert (text + rest)[0] == text[0] && IsDigit(text[0]);
  }

  lemma SignedIsRead(n: nat, rest: string)
    requires rest == "" || !IsDigit(rest[0])
    ensures StrToLong("+" + (DecimalText(n) + rest)) == n && StrToLong("-" + (DecimalText(n) + rest)) == 0 - n
  {
    hide DecimalText, DigitsValue;
    var tail := DecimalText(n) + rest;
    UnsignedIsRead(n, rest);
    assert ("+" + tail)[1..] == tail && ("-" + tail)[1..] == tail;
  }

  /** Blanks, a sign, digits: the number is read, and what follows it does not matter. */
  lemma NumberIsRead(blanks: string, n: nat, rest: string)
    requires (forall i | 0 <= i < |blanks| :: IsBlankChar(blanks[i])) && (rest == "" || !IsDigit(rest[0]))
    ensures var tail := DecimalText(n) + rest;
            && StrToLong(blanks + tail) == n && StrToLong(blanks + ("+" + tail)) == n
            && StrToLong(blanks + ("-" + tail)) == 0 - n
  {
    hide DecimalText, StrToLong, IsBlankChar;
    var tail := DecimalText(n) + rest;
    UnsignedIsRead(n, rest);
    SignedIsRead(n, rest);
    BlanksAreSkipped(blanks, tail);
    BlanksAreSkipped(blanks, "+" + tail);
    BlanksAreSkipped(blanks, "-" + tail);
  }

  /** The number after the first '-' is granted without its sign, from 1 to 300; anything else gives 300. */
  lemma TimeoutOfNumber(prefix: string, text: string)
    requires '-' !in prefix
    ensures var n := StrToLong(text);
            GrantedTimeout(Some(prefix + "-" + text)) == if -300 <= n <= 300 && n != 0 then (if n < 0 then -n else n) else 300
    ensures GrantedTimeout(Some(prefix)) == 300
  {
    var header := prefix + "-" + text;
    assert header[|prefix|] == '-' && header[..|prefix|] == prefix && header[|prefix| + 1..] == text;
    AfterMinusAt(header, |prefix|);
    NoMinus(prefix);
    hide StrToLong, AfterMinus;
  }

  lemma {:induction false} NoMinus(s: string)
    requires '-' !in s
    ensures AfterMinus(s).None?
  {
    if s != "" {
      assert s[0] in s && forall c | c in s[1..] :: c in s;
      NoMinus(s[1..]);
    }
  }

  /** The seconds asked for are granted, up to 300; 300 are also granted if none, no end or nothing is asked for. */
  lemma TimeoutAskedFor(n: nat)
    ensures GrantedTimeout(Some("Second-" + DecimalText(n))) == if n == 0 || n > 300 then 300 else n
    ensures GrantedTimeout(Some("Second-infinite")) == 300 && GrantedTimeout(None) == 300
  {
    hide DecimalText, AfterMinus, DigitsValue;
    UnsignedIsRead(n, "");
    assert DecimalText(n) + "" == DecimalText(n) && "Second" + "-" + DecimalText(n) == "Second-" + DecimalText(n);
    TimeoutOfNumber("Second", DecimalText(n));
    assert "Second" + "-" + "infinite" == "Second-infinite";
    TimeoutOfNumber("Second", "infinite");
    NoNumber();
  }

  lemma NoNumber()
    ensures StrToLong("infinite") == 0
  {
    assert "infinite"[0] == 'i';
  }

  /** `mupnp_subscriber_isexpired` */
  predicate Expired(s: Sub, now: int) {
    s.timeout != INFINITE && s.since + s.timeout < now
  }

  // ---------------------------------------------------------------------
  // Headers
  // ---------------------------------------------------------------------

  /** `mupnp_strltrim` for one character. */
  function TrimLeft(s: string, c: char): string {
    if s != "" && s[0] == c then TrimLeft(s[1..], c) else s
  }

  /** `mupnp_strrtrim` for one character. */
  function TrimRight(s: string, c: char): string {
    if s != "" && s[|s| - 1] == c then TrimRight(s[..|s| - 1], c) else s
  }

  /** The URL in a CALLBACK header. */
  function DeliveryUrl(callback: string): string {
    TrimRight(TrimLeft(callback, '<'), '>')
  }

  lemma {:induction false} TrimmedLeft(s: string, c: char) returns (i: nat)
    ensures i <= |s| && TrimLeft(s, c) == s[i..] && (i < |s| ==> s[i] != c) && forall k | 0 <= k < i :: s[k] == c
  {
    if s != "" && s[0] == c {
      var j := TrimmedLeft(s[1..], c);
      i := j + 1;
      assert s[1..][j..] == s[i..] && forall k | 0 < k < i :: s[k] == s[1..][k - 1];
    } else {
      i := 0;
      assert s[0..] == s;
    }
  }

  lemma {:induction false} TrimmedRight(s: string, c: char) returns (j: nat)
    ensures j <= |s| && TrimRight(s, c) == s[..j] && (j > 0 ==> s[j - 1] != c) && forall k | j <= k < |s| :: s[k] == c
  {
    if s != "" && s[|s| - 1] == c {
      j := TrimmedRight(s[..|s| - 1], c);
      assert s[..|s| - 1][..j] == s[..j] && forall k | j <= k < |s| - 1 :: s[k] == s[..|s| - 1][k];
    } else {
      j := |s|;
      assert s[..j] == s;
    }
  }

  /** All leading '<' and all trailing '>' are taken off, and nothing else. */
  lemma DeliveryUrlIsTrimmed(callback: string) returns (i: nat, j: nat)
    ensures i <= j <= |callback| && DeliveryUrl(callback) == callback[i..j]
    ensures (forall k | 0 <= k < i :: callback[k] == '<') && (forall k | j <= k < |callback| :: callback[k] == '>')
    ensures i < j ==> callback[i] != '<' && callback[j - 1] != '>'
  {
    i := TrimmedLeft(callback, '<');
    var rest := callback[i..];
    var n := TrimmedRight(rest, '>');
    j := i + n;
    assert rest[..n] == callback[i..j];
    assert forall k | 0 <= k < |rest| :: rest[k] == callback[i + k];
    assert forall k | j <= k < |callback| :: callback[k] == rest[k - i];
  }

  /** A URL in angle brackets is delivered to as it is. */
  lemma DeliveryUrlOfBracketed(url: string)
    requires url != "" && url[0] != '<' && url[|url| - 1] != '>'
    ensures DeliveryUrl("<" + url + ">") == url
  {
    var rest := url + ">";
    assert "<" + url + ">" == "<" + rest && ("<" + rest)[1..] == rest;
    assert rest[0] == url[0];
    assert TrimLeft(rest, '<') == rest;
    assert TrimLeft("<" + rest, '<') == rest;
    assert rest[|rest| - 1] == '>' && rest[..|rest| - 1] == url && TrimRight(url, '>') == url;
  }

  function AfterColon(s: string): CString {
    if s == "" then None else if s[0] == ':' then Some(s[1..]) else AfterColon(s[1..])
  }

  /** `mupnp_event_subscription_getsid`: what follows the first colon, or all of it. */
  function SidOfHeader(header: CString): CString {
    if header.None? || AfterColon(header.value).None? then header else AfterColon(header.value)
  }

  /** The part of a SID that is compared: five characters are skipped if it contains "uuid". */
  function SidToken(sid: string): string {
    if Contains(sid, "uuid") && |sid| >= 5 then sid[5..] else sid
  }

  /** A SID as it is granted, "uuid:" and an id, is compared by the id, also when it comes back in a SID header. */
  lemma GrantedSidComesBack(id: string)
    requires !Contains(id, "uuid")
    ensures SidToken("uuid:" + id) == id && SidOfHeader(Some("uuid:" + id)) == Some(id) && SidToken(id) == id
  {
    var sid := "uuid:" + id;
    assert OccursAt(sid, "uuid", 0);
    assert sid[4..] == ":" + id && (":" + id)[1..] == id && sid[5..] == id;
    AfterColonAt(sid, 4);
  }

  lemma {:induction false} AfterColonAt(s: string, i: nat)
    requires i < |s| && s[i] == ':' && ':' !in s[..i]
    ensures AfterColon(s) == Some(s[i + 1..])
  {
    if i > 0 {
      assert s[..i][0] == s[0] && s[1..][..i - 1] == s[..i][1..];
      AfterColonAt(s[1..], i - 1);
      assert s[1..][i..] == s[i + 1..];
    }
  }

  // ---------------------------------------------------------------------
  // Requests as functions of the subscriber list
  // ---------------------------------------------------------------------

  /** A SUBSCRIBE or UNSUBSCRIBE request: whether its URI names this service, and its headers. */
  datatype Request = Request(
    unsubscribe: bool, found: bool, callback: CString, sid: CString, nt: CString, timeout: CString)

  datatype Response = PreconditionFailed | BadRequest | Ok(sid: string, timeout: int) | Unsubscribed

  predicate Listed(subs: seq<Sub>, sid: string) {
    exists i | 0 <= i < |subs| :: SidToken(subs[i].sid) == SidToken(sid)
  }

  function SidsOf(subs: seq<Sub>): (r: seq<string>)
    ensures |r| == |subs| && forall i | 0 <= i < |r| :: r[i] == subs[i].sid
  {
    seq(|subs|, i requires 0 <= i < |subs| => subs[i].sid)
  }

  function IndexOfToken(subs: seq<Sub>, token: string): (r: Option<nat>)
    ensures r.Some? ==>
      && r.value < |subs| && SidToken(subs[r.value].sid) == token
      && forall j | 0 <= j < r.value :: SidToken(subs[j].sid) != token
    ensures r.None? ==> forall j | 0 <= j < |subs| :: SidToken(subs[j].sid) != token
  {
    if subs == [] then None
    else if SidToken(subs[0].sid) == token then Some(0)
    else
      match IndexOfToken(subs[1..], token)
      case None => None
      case Some(i) => Some(i + 1)
  }

  /** `mupnp_service_getsubscriberbysid`: the position of the first subscriber with the SID. */
  function IndexOf(subs: seq<Sub>, sid: CString): (r: Option<nat>)
    ensures r.Some? ==> r.value < |subs| && !IsBlank(sid) && SidToken(subs[r.value].sid) == SidToken(sid.value)
    ensures r.Some? ==> forall j | 0 <= j < r.value :: SidToken(subs[j].sid) != SidToken(sid.value)
    ensures r.None? ==> IsBlank(sid) || !Listed(subs, sid.value)
  {
    if IsBlank(sid) then None else IndexOfToken(subs, SidToken(sid.value))
  }

  /** The checks that come before the three handlers; `None` if the request gets through. */
  function Refusal(r: Request): Option<Response> {
    if !r.found || (r.callback.None? && r.sid.None?) || r.callback == Some("") then Some(PreconditionFailed)
    else if r.sid.Some? && (r.callback.Some? || r.nt.Some?) then Some(BadRequest)
    else if r.nt.Some? && r.nt.value != NT_EVENT then Some(PreconditionFailed)
    else None
  }

  /** `mupnp_device_subscriptionrecieved`, with a fresh SID at hand in case one is needed. */
  function Handle(subs: seq<Sub>, r: Request, freshSid: string, now: int): (seq<Sub>, Response) {
    if Refusal(r).Some? then (subs, Refusal(r).value)
    else if !r.unsubscribe && r.callback.Some? then
      var timeout := GrantedTimeout(r.timeout);
      (subs + [Sub(freshSid, DeliveryUrl(r.callback.value), timeout, now, 0)], Ok(freshSid, timeout))
    else
      var sid := SidOfHeader(r.sid);
      match IndexOf(subs, sid)
      case None => (subs, PreconditionFailed)
      case Some(i) =>
        if r.unsubscribe then (subs[..i] + subs[i + 1..], Unsubscribed)
        else
          var timeout := GrantedTimeout(r.timeout);
          (subs[i := subs[i].(timeout := timeout, since := now)], Ok(sid.value, timeout))
  }

  /** A request changes the list exactly when it is well formed and names a live subscription where it must. */
  lemma GrantedIff(subs: seq<Sub>, r: Request, freshSid: string, now: int)
    ensures Handle(subs, r, freshSid, now).1.Ok? || Handle(subs, r, freshSid, now).1.Unsubscribed?
       <==> && r.found
            && (if r.callback.Some? then r.callback != Some("") && r.sid.None? && !r.unsubscribe
                                         && (r.nt.None? || r.nt == Some(NT_EVENT))
                else r.nt.None? && !IsBlank(SidOfHeader(r.sid)) && Listed(subs, SidOfHeader(r.sid).value))
    ensures Handle(subs, r, freshSid, now).1.BadRequest?
       <==> r.found && r.sid.Some? && r.callback != Some("") && (r.callback.Some? || r.nt.Some?)
    ensures Handle(subs, r, freshSid, now).1.PreconditionFailed? || Handle(subs, r, freshSid, now).1.BadRequest?
        ==> Handle(subs, r, freshSid, now).0 == subs
  {
    var sid := SidOfHeader(r.sid);
    hide SidToken, AfterColon, GrantedTimeout, DeliveryUrl;
    if !IsBlank(sid) && Listed(subs, sid.value) {
      assert IndexOf(subs, sid).Some?;
    }
  }

  /** The entry that a SID header names: the first one with the SID. */
  predicate Names(subs: seq<Sub>, header: CString, i: nat) {
    var sid := SidOfHeader(header);
    && i < |subs| && sid.Some? && sid.value != "" && SidToken(subs[i].sid) == SidToken(sid.value)
    && forall j | 0 <= j < i :: SidToken(subs[j].sid) != SidToken(sid.value)
  }

  lemma IndexOfNamed(subs: seq<Sub>, header: CString, i: nat)
    ensures Names(subs, header, i) <==> IndexOf(subs, SidOfHeader(header)) == Some(i)
  {
    hide SidToken, SidOfHeader, IndexOfToken;
    var found := IndexOf(subs, SidOfHeader(header));
    if Names(subs, header, i) {
      assert Listed(subs, SidOfHeader(header).value);
    }
  }

  /** A new subscription is one entry more, dated now, with no message sent yet; the answer has its SID and timeout. */
  lemma NewOutcome(subs: seq<Sub>, r: Request, freshSid: string, now: int)
    requires r.found && !r.unsubscribe && r.callback.Some? && r.callback.value != "" && r.sid.None?
    requires r.nt.None? || r.nt.value == "upnp:event"
    ensures var timeout := GrantedTimeout(r.timeout);
            && Handle(subs, r, freshSid, now).0 == subs + [Sub(freshSid, DeliveryUrl(r.callback.value), timeout, now, 0)]
            && Handle(subs, r, freshSid, now).1 == Ok(freshSid, timeout)
  {
    hide GrantedTimeout, DeliveryUrl;
  }

  /** A renewal dates the named entry anew, with the timeout asked for now, and an unsubscription takes it out. */
  lemma ExistingOutcome(subs: seq<Sub>, r: Request, freshSid: string, now: int, i: nat)
    requires r.found && r.callback.None? && r.nt.None? && Names(subs, r.sid, i)
    ensures Handle(subs, r, freshSid, now)
         == (if r.unsubscribe then (subs[..i] + subs[i + 1..], Unsubscribed)
             else
               var s, timeout := subs[i], GrantedTimeout(r.timeout);
               (subs[i := Sub(s.sid, s.callback, timeout, now, s.notifyCount)], Ok(SidOfHeader(r.sid).value, timeout)))
  {
    IndexOfNamed(subs, r.sid, i);
    hide GrantedTimeout, IndexOf, Names;
  }

  // ---------------------------------------------------------------------
  // Notification passes as functions of the subscriber list
  // ---------------------------------------------------------------------

  /** The readings of the clock at successive expiry tests, and the outcomes of successive deliveries. */
  type Clock = nat -> int
  type Network = nat -> bool

  /** The expiry sweep. */
  function Sweep(subs: seq<Sub>, clock: Clock, n: nat): seq<Sub> {
    if subs == [] then []
    else (if Expired(subs[0], clock(n)) then [] else [subs[0]]) + Sweep(subs[1..], clock, n + 1)
  }

  /** A subscriber after a message has reached it. */
  function Counted(s: Sub): Sub {
    s.(notifyCount := EventKey.IncrementNotifyCount(s.notifyCount))
  }

  /** The delivery pass: a delivery that fails costs the subscription. */
  function Deliver(subs: seq<Sub>, network: Network, n: nat): seq<Sub> {
    if subs == [] then []
    else (if network(n) then [Counted(subs[0])] else []) + Deliver(subs[1..], network, n + 1)
  }

  /** A NOTIFY message that was sent: to whom, and its SEQ header. */
  datatype Sent = Sent(sid: string, seqNumber: nat)

  function Messages(subs: seq<Sub>): (r: seq<Sent>)
    ensures |r| == |subs| && forall i | 0 <= i < |r| :: r[i] == Sent(subs[i].sid, subs[i].notifyCount)
  {
    if subs == [] then [] else [Sent(subs[0].sid, subs[0].notifyCount)] + Messages(subs[1..])
  }

  /** `mupnp_service_notifymain`: the list afterwards and the messages sent. */
  function NotifyPass(subs: seq<Sub>, clock: Clock, network: Network): (seq<Sub>, seq<Sent>) {
    var live := Sweep(subs, clock, 0);
    (Deliver(live, network, 0), Messages(live))
  }

  // ---------------------------------------------------------------------
  // The subscriber objects
  // ---------------------------------------------------------------------

  class Subscriber {
    const sid: string
    const callback: string
    var timeout: int
    var subscriptionTime: int
    var notifyCount: nat

    constructor (sid: string, callback: string, timeout: int, now: int)
      ensures Value() == Sub(sid, callback, timeout, now, 0)
    {
      this.sid, this.callback, this.timeout := sid, callback, timeout;
      subscriptionTime, notifyCount := now, 0;
    }

    function Value(): Sub
      reads this
    {
      Sub(sid, callback, timeout, subscriptionTime, notifyCount)
    }

    /** `mupnp_subscriber_incrementnotifycount` */
    method IncrementNotifyCount()
      modifies this`notifyCount
      ensures Value() == Counted(old(Value()))
    {
      if EventKey.NOTIFY_COUNT_MAX <= notifyCount {
        notifyCount := 0;
      }
      notifyCount := notifyCount + 1;
    }
  }

  ghost function SetOf(subs: seq<Subscriber>): set<Subscriber> {
    set s | s in subs
  }

  ghost function Values(subs: seq<Subscriber>): (r: seq<Sub>)
    reads SetOf(subs)
    ensures |r| == |subs| && forall i | 0 <= i < |r| :: r[i] == subs[i].Value()
  {
    if subs == [] then [] else [subs[0].Value()] + Values(subs[1..])
  }

  lemma ValuesAppend(kept: seq<Subscriber>, sub: Subscriber)
    ensures Values(kept + [sub]) == Values(kept) + [sub.Value()]
  {
    hide Values;
  }

  lemma ValuesFirst(subArray: seq<Subscriber>, n: nat, before: seq<Sub>)
    requires n < |subArray| == |before| && Values(subArray[n..]) == before[n..]
    ensures subArray[n].Value() == before[n] && Values(subArray[n + 1..]) == before[n + 1..]
  {
    hide Values;
    assert Values(subArray[n..])[0] == before[n..][0];
    var rest, others := Values(subArray[n + 1..]), before[n + 1..];
    forall k | 0 <= k < |rest| ensures rest[k] == others[k] {
      assert Values(subArray[n..])[k + 1] == before[n..][k + 1];
    }
  }

  lemma DifferentParts(kept: seq<Subscriber>, sub: Subscriber, rest: seq<Subscriber>)
    requires Distinct(kept + [sub] + rest)
    ensures sub !in kept && sub !in rest
  {
    var all := kept + [sub] + rest;
    assert all[|kept|] == sub;
    assert forall k | 0 <= k < |kept| :: all[k] == kept[k];
    assert forall k | 0 <= k < |rest| :: all[|kept| + 1 + k] == rest[k];
  }

  /** The sweep so far: those kept, then the sweep of what is left, make the whole sweep. */
  ghost predicate SweptTo(before: seq<Sub>, kept: seq<Sub>, clock: Clock, n: nat) {
    n <= |before| && kept + Sweep(before[n..], clock, n) == Sweep(before, clock, 0)
  }

  lemma SweepStep(before: seq<Sub>, kept: seq<Sub>, clock: Clock, n: nat)
    requires SweptTo(before, kept, clock, n) && n < |before|
    ensures SweptTo(before, kept + (if Expired(before[n], clock(n)) then [] else [before[n]]), clock, n + 1)
  {
    hide Expired;
    assert before[n..][1..] == before[n + 1..];
  }

  lemma SweepEnds(before: seq<Sub>, kept: seq<Sub>, clock: Clock)
    ensures SweptTo(before, [], clock, 0)
    ensures SweptTo(before, kept, clock, |before|) ==> kept == Sweep(before, clock, 0)
  {
    assert before[0..] == before && before[|before|..] == [];
  }

  /** The same for the delivery pass, with the messages sent so far. */
  ghost predicate DeliveredTo(before: seq<Sub>, kept: seq<Sub>, sent: seq<Sent>, network: Network, n: nat) {
    && n <= |before| && sent == Messages(before)[..n]
    && kept + Deliver(before[n..], network, n) == Deliver(before, network, 0)
  }

  lemma DeliverStep(before: seq<Sub>, kept: seq<Sub>, sent: seq<Sent>, network: Network, n: nat)
    requires DeliveredTo(before, kept, sent, network, n) && n < |before|
    ensures DeliveredTo(before, kept + (if network(n) then [Counted(before[n])] else []),
                        sent + [Sent(before[n].sid, before[n].notifyCount)], network, n + 1)
  {
    hide Counted, Messages;
    assert before[n..][1..] == before[n + 1..];
    assert Messages(before)[..n + 1] == Messages(before)[..n] + [Messages(before)[n]];
  }

  lemma DeliverEnds(before: seq<Sub>, kept: seq<Sub>, sent: seq<Sent>, network: Network)
    ensures DeliveredTo(before, [], [], network, 0)
    ensures DeliveredTo(before, kept, sent, network, |before|) ==>
              kept == Deliver(before, network, 0) && sent == Messages(before)
  {
    hide Messages;
    assert before[0..] == before && before[|before|..] == [];
    assert Messages(before)[..|before|] == Messages(before);
  }

  /** The live list while a snapshot is walked: those kept so far, then those not yet visited. */
  ghost predicate Split(live: seq<Subscriber>, kept: seq<Subscriber>, subArray: seq<Subscriber>, n: nat) {
    n <= |subArray| && live == kept + subArray[n..] && forall sub | sub in kept :: sub in subArray
  }

  lemma SplitStart(subArray: seq<Subscriber>)
    ensures Split(subArray, [], subArray, 0)
  {
  }

  lemma SplitStep(live: seq<Subscriber>, kept: seq<Subscriber>, subArray: seq<Subscriber>, n: nat)
    requires Split(live, kept, subArray, n) && n < |subArray|
    ensures live == kept + [subArray[n]] + subArray[n + 1..]
    ensures Split(kept + subArray[n + 1..], kept, subArray, n + 1)
    ensures Split(kept + [subArray[n]] + subArray[n + 1..], kept + [subArray[n]], subArray, n + 1)
  {
    assert subArray[n..] == [subArray[n]] + subArray[n + 1..];
  }

  lemma SplitEnd(live: seq<Subscriber>, kept: seq<Subscriber>, subArray: seq<Subscriber>)
    requires Split(live, kept, subArray, |subArray|)
    ensures live == kept && forall sub | sub in live :: sub in subArray
  {
  }

  class EventedService {
    var subscriberList: seq<Subscriber>

    constructor ()
      ensures Valid() && subscriberList == []
    {
      subscriberList := [];
    }

    ghost predicate Valid()
      reads this
    {
      Distinct(subscriberList)
    }

    ghost function Abstract(): seq<Sub>
      reads this, SetOf(subscriberList)
    {
      Values(subscriberList)
    }

    /** `mupnp_service_getsubscriberbysid` */
    method GetSubscriberBySid(sid: CString) returns (sub: Subscriber?, ghost index: Option<nat>)
      ensures index == IndexOf(Abstract(), sid)
      ensures if index.Some? then sub == subscriberList[index.value] else sub == null
    {
      hide SidToken, Values, IndexOf;
      if IsBlank(sid) {
        return null, None;
      }
      ghost var values := Abstract();
      var i := 0;
      while i < |subscriberList|
        invariant 0 <= i <= |subscriberList|
        invariant forall j | 0 <= j < i :: SidToken(values[j].sid) != SidToken(sid.value)
      {
        if SidToken(subscriberList[i].sid) == SidToken(sid.value) {
          return subscriberList[i], Some(i);
        }
        i := i + 1;
      }
      return null, None;
    }

    /** `mupnp_service_removesubscriber`, which takes the subscriber out of whatever list it is in. */
    method RemoveSubscriber(sub: Subscriber, ghost index: nat)
      requires Valid() && index < |subscriberList| && subscriberList[index] == sub
      modifies this
      ensures Valid() && subscriberList == old(subscriberList[..index] + subscriberList[index + 1..])
    {
      var i := 0;
      while subscriberList[i] != sub
        invariant 0 <= i <= index
        decreases index - i
      {
        i := i + 1;
      }
      subscriberList := subscriberList[..i] + subscriberList[i + 1..];
    }

    /** `mupnp_device_newsubscriptionrecieved` */
    method NewSubscription(r: Request, freshSid: string, now: int) returns (response: Response)
      requires Valid() && r.callback.Some?
      modifies this
      ensures Valid() && fresh(SetOf(subscriberList) - old(SetOf(subscriberList)))
      ensures var timeout := GrantedTimeout(r.timeout);
              && Abstract() == old(Abstract()) + [Sub(freshSid, DeliveryUrl(r.callback.value), timeout, now, 0)]
              && response == Ok(freshSid, timeout)
    {
      var timeout := GetTimeout(r.timeout);
      if timeout > MAX_TIMEOUT || timeout == INFINITE {
        timeout := MAX_TIMEOUT;
      }
      hide Values, GetTimeout, DeliveryUrl;
      var callback := DeliveryUrl(r.callback.value);
      var sub := new Subscriber(freshSid, callback, timeout, now);
      assert forall i | 0 <= i < |subscriberList| :: subscriberList[i] in old(SetOf(subscriberList));
      subscriberList := subscriberList + [sub];
      response := Ok(freshSid, timeout);
    }

    /** `mupnp_device_renewsubscriptionrecieved` and `mupnp_device_unsubscriptionrecieved` */
    method ExistingSubscription(r: Request, now: int) returns (response: Response)
      requires Valid()
      modifies this, SetOf(subscriberList)
      ensures Valid() && SetOf(subscriberList) <= old(SetOf(subscriberList))
      ensures match IndexOf(old(Abstract()), SidOfHeader(r.sid))
              case None => Abstract() == old(Abstract()) && response == PreconditionFailed
              case Some(i) =>
                var before := old(Abstract());
                if r.unsubscribe then Abstract() == before[..i] + before[i + 1..] && response == Unsubscribed
                else
                  var timeout := GrantedTimeout(r.timeout);
                  && Abstract() == before[i := before[i].(timeout := timeout, since := now)]
                  && response == Ok(SidOfHeader(r.sid).value, timeout)
    {
      hide Values, GetTimeout, IndexOf, SidToken, SidOfHeader;
      ghost var before := Abstract();
      var sid := SidOfHeader(r.sid);
      var sub, index := GetSubscriberBySid(sid);
      if sub == null {
        return PreconditionFailed;
      }
      assert sub in SetOf(subscriberList);
      if r.unsubscribe {
        RemoveSubscriber(sub, index.value);
        assert Abstract() == before[..index.value] + before[index.value + 1..];
        return Unsubscribed;
      }
      var timeout := GetTimeout(r.timeout);
      if timeout > MAX_TIMEOUT || timeout == INFINITE {
        timeout := MAX_TIMEOUT;
      }
      sub.timeout := timeout;
      sub.subscriptionTime := now;
      assert Abstract() == before[index.value := before[index.value].(timeout := timeout, since := now)];
      return Ok(sid.value, timeout);
    }

    /** `mupnp_device_subscriptionrecieved` */
    method HandleRequest(r: Request, freshSid: string, now: int) returns (response: Response)
      requires Valid()
      modifies this, SetOf(subscriberList)
      ensures Valid() && (Abstract(), response) == Handle(old(Abstract()), r, freshSid, now)
    {
      hide Values, GrantedTimeout, IndexOf, SidOfHeader, SidToken, DeliveryUrl;
      if !r.found {
        return PreconditionFailed;
      }
      if r.callback.None? && r.sid.None? {
        return PreconditionFailed;
      }
      if r.callback.Some? && r.callback.value == "" {
        return PreconditionFailed;
      }
      if r.sid.Some? && (r.callback.Some? || r.nt.Some?) {
        return BadRequest;
      }
      if r.nt.Some? && r.nt.value != NT_EVENT {
        return PreconditionFailed;
      }
      if !r.unsubscribe && r.callback.Some? {
        response := NewSubscription(r, freshSid, now);
      } else {
        response := ExistingSubscription(r, now);
      }
    }

    /** Taking one subscriber out of the middle of the list. */
    method RemoveBetween(sub: Subscriber, ghost kept: seq<Subscriber>, ghost rest: seq<Subscriber>)
      requires Valid() && subscriberList == kept + [sub] + rest
      modifies this
      ensures Valid() && subscriberList == kept + rest
    {
      hide Distinct;
      RemoveSubscriber(sub, |kept|);
      assert subscriberList == kept + rest;
    }

    /** One expiry test. */
    method RemoveIfExpired(sub: Subscriber, now: int, ghost kept: seq<Subscriber>, ghost rest: seq<Subscriber>)
      returns (ghost newKept: seq<Subscriber>)
      requires Valid() && subscriberList == kept + [sub] + rest
      modifies this
      ensures Valid() && subscriberList == newKept + rest
      ensures newKept == if old(Expired(sub.Value(), now)) then kept else kept + [sub]
      ensures Values(newKept) == old(Values(kept) + (if Expired(sub.Value(), now) then [] else [sub.Value()]))
    {
      hide Distinct, Values, Expired;
      assert allocated(SetOf(kept));
      newKept := kept;
      if Expired(sub.Value(), now) {
        RemoveBetween(sub, kept, rest);
      } else {
        ValuesAppend(kept, sub);
        newKept := kept + [sub];
      }
    }

    /** The first snapshot loop of `mupnp_service_notifymain`. */
    method RemoveExpired(clock: Clock)
      requires Valid()
      modifies this
      ensures Valid() && (forall sub | sub in subscriberList :: sub in old(subscriberList))
      ensures Abstract() == Sweep(old(Abstract()), clock, 0)
    {
      hide Values, Distinct, Expired, SweptTo, Sweep, Split;
      var subArray := subscriberList;
      ghost var before, kept: seq<Subscriber> := Values(subArray), [];
      var n := 0;
      SplitStart(subArray);
      SweepEnds(before, [], clock);
      assert Values(kept) == [];
      while n < |subArray|
        invariant 0 <= n <= |subArray| && Valid() && Split(subscriberList, kept, subArray, n)
        invariant Values(subArray) == before
        invariant SweptTo(before, Values(kept), clock, n)
      {
        assert subArray[n].Value() == before[n];
        SweepStep(before, Values(kept), clock, n);
        SplitStep(subscriberList, kept, subArray, n);
        kept := RemoveIfExpired(subArray[n], clock(n), kept, subArray[n + 1..]);
        n := n + 1;
      }
      SplitEnd(subscriberList, kept, subArray);
      SweepEnds(before, Values(kept), clock);
    }

    /** One delivery: the subscriber is counted or taken out, the others are left alone. */
    method DeliverTo(sub: Subscriber, success: bool, ghost kept: seq<Subscriber>, ghost rest: seq<Subscriber>)
      returns (ghost newKept: seq<Subscriber>)
      requires Valid() && subscriberList == kept + [sub] + rest
      modifies this, sub
      ensures Valid() && subscriberList == newKept + rest && newKept == (if success then kept + [sub] else kept)
      ensures Values(newKept) == old(Values(kept)) + (if success then [Counted(old(sub.Value()))] else [])
      ensures Values(rest) == old(Values(rest))
    {
      DifferentParts(kept, sub, rest);
      hide Values, Distinct;
      ghost var before, others := Values(kept), Values(rest);
      newKept := kept;
      if success {
        sub.IncrementNotifyCount();
        assert Values(kept) == before && Values(rest) == others;
        ValuesAppend(kept, sub);
        newKept := kept + [sub];
      } else {
        RemoveBetween(sub, kept, rest);
      }
    }

    /** The second snapshot loop: one NOTIFY for each subscriber, and those it does not reach are removed. */
    method NotifySubscribers(network: Network) returns (sent: seq<Sent>)
      requires Valid()
      modifies this, SetOf(subscriberList)
      ensures Valid() && (forall sub | sub in subscriberList :: sub in old(subscriberList))
      ensures Abstract() == Deliver(old(Abstract()), network, 0) && sent == Messages(old(Abstract()))
    {
      hide Values, Distinct, Messages, Deliver, DeliveredTo, Counted, Split;
      var subArray := subscriberList;
      ghost var before, kept: seq<Subscriber> := Values(subArray), [];
      var n := 0;
      sent := [];
      SplitStart(subArray);
      DeliverEnds(before, [], [], network);
      assert before[0..] == before && subArray[0..] == subArray && Values(kept) == [];
      while n < |subArray|
        invariant 0 <= n <= |subArray| && Valid() && Split(subscriberList, kept, subArray, n)
        invariant Values(subArray[n..]) == before[n..]
        invariant DeliveredTo(before, Values(kept), sent, network, n)
      {
        var sub := subArray[n];
        assert sub in SetOf(subArray);
        ValuesFirst(subArray, n, before);
        DeliverStep(before, Values(kept), sent, network, n);
        SplitStep(subscriberList, kept, subArray, n);
        sent := sent + [Sent(sub.sid, sub.notifyCount)];
        kept := DeliverTo(sub, network(n), kept, subArray[n + 1..]);
        n := n + 1;
      }
      SplitEnd(subscriberList, kept, subArray);
      DeliverEnds(before, Values(kept), sent, network);
    }

    /** `mupnp_service_notifymain` */
    method NotifyMain(clock: Clock, network: Network) returns (sent: seq<Sent>)
      requires Valid()
      modifies this, SetOf(subscriberList)
      ensures Valid() && (Abstract(), sent) == NotifyPass(old(Abstract()), clock, network)
    {
      RemoveExpired(clock);
      assert SetOf(subscriberList) <= old(SetOf(subscriberList));
      sent := NotifySubscribers(network);
    }
  }
}
