/** The table of timestamps that suppresses repeated M-SEARCH packets. */
module SearchFilter {
  import opened Text

  /** A `char` of a C string, read as unsigned. */
  type Byte = x: int | 1 <= x < 256 witness 1

  const FILTER_TABLE_SIZE := 101
  const FILTER_INTERVAL := 15
  const TWO_TO_THE_32 := 0x1_0000_0000

  datatype Search = Search(address: seq<Byte>, port: int, st: seq<Byte>)

  function Digits(n: nat): seq<Byte> {
    if n < 10 then [48 + n] else Digits(n / 10) + [48 + n % 10]
  }

  /** `sprintf(port, "%d", remotePort)` */
  function Decimal(n: int): seq<Byte> {
    if n < 0 then [45] + Digits(-n) else Digits(n)
  }

  function IdString(p: Search): seq<Byte> {
    p.address + Decimal(p.port) + p.st
  }

  function Sum(s: seq<Byte>): nat {
    if s == [] then 0 else Sum(s[..|s| - 1]) + s[|s| - 1]
  }

  lemma SumStep(s: seq<Byte>, i: nat)
    requires i < |s|
    ensures Sum(s[..i + 1]) == Sum(s[..i]) + s[i]
  {
    assert s[..i + 1][..i] == s[..i];
  }

  /** The slot of a search. */
  function Slot(p: Search): (k: nat)
    ensures k < FILTER_TABLE_SIZE
  {
    Sum(IdString(p)) % TWO_TO_THE_32 % FILTER_TABLE_SIZE
  }

  /** `simple_string_hash`: an `unsigned int` sum, so it wraps around. */
  method SimpleStringHash(str: Option<seq<Byte>>, tableSize: int) returns (index: int)
    requires tableSize < 0x8000_0000
    ensures str.None? || tableSize <= 0 ==> index == -1
    ensures str.Some? && tableSize > 0 ==>
      0 <= index < tableSize && index == Sum(str.value) % TWO_TO_THE_32 % tableSize
  {
    if str.None? || tableSize <= 0 {
      return -1;
    }
    var sum, i := 0, 0;
    while i < |str.value|
      invariant 0 <= i <= |str.value| && sum == Sum(str.value[..i]) % TWO_TO_THE_32
    {
      SumStep(str.value, i);
      sum := (sum + str.value[i]) % TWO_TO_THE_32;
      i := i + 1;
    }
    assert str.value[..i] == str.value;
    return sum % tableSize;
  }

  // ---------------------------------------------------------------------
  // The history that the table stands for
  // ---------------------------------------------------------------------

  /** A packet that reached the filter: its slot and the clock reading. */
  datatype Seen = Seen(slot: nat, time: int)

  predicate IsLatest(history: seq<Seen>, slot: nat, i: nat) {
    && i < |history| && history[i].slot == slot
    && forall j | i < j < |history| :: history[j].slot != slot
  }

  /** The latest earlier packet of the slot is less than the interval old; a reading of 0 leaves no trace. */
  ghost predicate Repeats(history: seq<Seen>, slot: nat, now: int) {
    exists i: nat :: IsLatest(history, slot, i) && history[i].time != 0 && now - history[i].time < FILTER_INTERVAL
  }

  /** A slot holds the time of the latest packet of its bucket, or 0 if there was none. */
  ghost predicate Records(time: int, history: seq<Seen>, slot: nat) {
    && (forall i: nat | IsLatest(history, slot, i) :: time == history[i].time)
    && ((forall i: nat :: !IsLatest(history, slot, i)) ==> time == 0)
  }

  lemma LatestAfter(history: seq<Seen>, seen: Seen, slot: nat, i: nat)
    ensures IsLatest(history + [seen], slot, i)
       <==> if seen.slot == slot then i == |history| else IsLatest(history, slot, i)
  {
    var longer := history + [seen];
    assert longer[|history|] == seen;
    if IsLatest(longer, slot, i) && i < |history| {
      forall j | i < j < |history| ensures history[j].slot != slot {
        assert longer[j] == history[j];
      }
    }
  }

  lemma RecordsAfter(time: int, history: seq<Seen>, seen: Seen, slot: nat)
    requires seen.slot != slot ==> Records(time, history, slot)
    ensures Records(if seen.slot == slot then seen.time else time, history + [seen], slot)
  {
    forall i: nat ensures IsLatest(history + [seen], slot, i)
                <==> if seen.slot == slot then i == |history| else IsLatest(history, slot, i) {
      LatestAfter(history, seen, slot, i);
    }
    if seen.slot == slot {
      assert IsLatest(history + [seen], slot, |history|);
    }
  }

  /** The part of `mUpnpSSDPPacket` that outlives a packet. */
  class FilterTable {
    var initialized: bool
    const timestamps: array<int>
    ghost var history: seq<Seen>

    /** The table comes from malloc; it is cleared on first use. */
    constructor ()
      ensures Valid() && history == [] && fresh(timestamps)
    {
      initialized := false;
      timestamps := new int[FILTER_TABLE_SIZE];
      history := [];
    }

    ghost predicate Valid()
      reads this, timestamps
    {
      && timestamps.Length == FILTER_TABLE_SIZE
      && (!initialized ==> history == [])
      && (initialized ==> forall k | 0 <= k < FILTER_TABLE_SIZE :: Records(timestamps[k], history, k))
    }

    method ClearTable()
      requires Valid() && !initialized
      modifies this`initialized, timestamps
      ensures Valid() && initialized
    {
      initialized := true;
      var i := 0;
      while i < FILTER_TABLE_SIZE
        invariant 0 <= i <= FILTER_TABLE_SIZE && initialized && timestamps.Length == FILTER_TABLE_SIZE
        invariant forall k | 0 <= k < i :: timestamps[k] == 0
      {
        timestamps[i] := 0;
        i := i + 1;
      }
    }

    /** `filter_duplicate_m_search`: whether the packet is suppressed. */
    method FilterDuplicate(p: Search, currTime: int) returns (suppressed: bool)
      requires Valid()
      modifies this, timestamps
      ensures Valid() && history == old(history) + [Seen(Slot(p), currTime)]
      ensures suppressed <==> Repeats(old(history), Slot(p), currTime)
    {
      if !initialized {
        ClearTable();
      }
      var loc := SimpleStringHash(Some(IdString(p)), FILTER_TABLE_SIZE);
      ghost var before := timestamps[..];
      assert loc == Slot(p) && Records(timestamps[loc], history, loc);
      if timestamps[loc] == 0 {
        suppressed := false;
      } else {
        suppressed := currTime - timestamps[loc] < FILTER_INTERVAL;
      }
      RepeatsIffRecorded(timestamps[loc], history, loc, currTime);
      timestamps[loc] := currTime;
      forall k | 0 <= k < FILTER_TABLE_SIZE
        ensures Records(timestamps[k], history + [Seen(loc, currTime)], k)
      {
        RecordsAfter(before[k], history, Seen(loc, currTime), k);
      }
      history := history + [Seen(loc, currTime)];
    }
  }

  lemma RepeatsIffRecorded(time: int, history: seq<Seen>, slot: nat, now: int)
    requires Records(time, history, slot)
    ensures Repeats(history, slot, now) <==> time != 0 && now - time < FILTER_INTERVAL
  {
    if i: nat :| IsLatest(history, slot, i) {
      assert time == history[i].time;
    }
  }

  // ---------------------------------------------------------------------
  // What that means for searches
  // ---------------------------------------------------------------------

  predicate ClockRuns(history: seq<Seen>) {
    && (forall i | 0 <= i < |history| :: history[i].time > 0)
    && (forall i, j | 0 <= i < j < |history| :: history[i].time <= history[j].time)
  }

  lemma {:induction false} LatestExists(history: seq<Seen>, slot: nat, i: nat) returns (k: nat)
    requires i < |history| && history[i].slot == slot
    ensures i <= k && IsLatest(history, slot, k)
    decreases |history| - i
  {
    if j :| i < j < |history| && history[j].slot == slot {
      k := LatestExists(history, slot, j);
    } else {
      k := i;
    }
  }

  /** A repeat of the same address, port and ST within the interval is always suppressed. */
  lemma RepeatIsSuppressed(history: seq<Seen>, p: Search, i: nat, now: int)
    requires ClockRuns(history) && i < |history| && history[i].slot == Slot(p)
    requires now - history[i].time < 15
    ensures Repeats(history, Slot(p), now)
  {
    var k := LatestExists(history, Slot(p), i);
    assert i < k ==> history[i].time <= history[k].time;
  }

  /** With a running clock a packet passes exactly when its bucket was quiet for the whole interval. */
  lemma PassesIffBucketQuiet(history: seq<Seen>, p: Search, now: int)
    requires ClockRuns(history)
    ensures !Repeats(history, Slot(p), now)
       <==> forall i | 0 <= i < |history| && history[i].slot == Slot(p) :: now - history[i].time >= 15
  {
    if i :| 0 <= i < |history| && history[i].slot == Slot(p) && now - history[i].time < FILTER_INTERVAL {
      RepeatIsSuppressed(history, p, i, now);
    }
    if Repeats(history, Slot(p), now) {
      var i: nat :| IsLatest(history, Slot(p), i) && history[i].time != 0 && now - history[i].time < FILTER_INTERVAL;
      assert history[i].slot == Slot(p);
    }
  }

  lemma {:induction false} SumOfConcat(a: seq<Byte>, b: seq<Byte>)
    ensures Sum(a + b) == Sum(a) + Sum(b)
  {
    if b == [] {
      assert a + b == a;
    } else {
      SumOfConcat(a, b[..|b| - 1]);
      assert (a + b)[..|a + b| - 1] == a + b[..|b| - 1];
    }
  }

  /**
   * Whatever the clock does, the latest earlier packet of the slot decides: it
   * suppresses a search less than 15 seconds after it, unless its own reading
   * was 0. Without one the search passes.
   */
  lemma LatestDecides(history: seq<Seen>, slot: nat, now: int)
    ensures forall i | 0 <= i < |history| && history[i].slot == slot && (forall j | i < j < |history| :: history[j].slot != slot) ::
              Repeats(history, slot, now) <==> history[i].time != 0 && now - history[i].time < 15
    ensures (forall i | 0 <= i < |history| :: history[i].slot != slot) ==> !Repeats(history, slot, now)
  {
    forall i | 0 <= i < |history| && history[i].slot == slot && (forall j | i < j < |history| :: history[j].slot != slot)
      ensures Repeats(history, slot, now) <==> history[i].time != 0 && now - history[i].time < 15
    {
      assert IsLatest(history, slot, i);
      assert forall k: nat | IsLatest(history, slot, k) :: k == i;
    }
  }

  /** The sum of the bytes, from the front. */
  function ByteSum(s: seq<Byte>): nat {
    if s == [] then 0 else s[0] + ByteSum(s[1..])
  }

  lemma {:induction false} SumIsByteSum(s: seq<Byte>)
    ensures Sum(s) == ByteSum(s)
  {
    if s != [] {
      SumIsByteSum(s[1..]);
      SumOfConcat([s[0]], s[1..]);
      assert s == [s[0]] + s[1..] && [s[0]][..0] == [];
    }
  }

  /** Address, port and ST of a search all count for its slot: their bytes are added up. */
  lemma SlotAddsUp(p: Search)
    ensures Slot(p) == (ByteSum(p.address) + ByteSum(Decimal(p.port)) + ByteSum(p.st)) % 0x1_0000_0000 % 101
  {
    SumOfConcat(p.address + Decimal(p.port), p.st);
    SumOfConcat(p.address, Decimal(p.port));
    SumIsByteSum(p.address);
    SumIsByteSum(Decimal(p.port));
    SumIsByteSum(p.st);
  }

  /** Reading decimal digits back. */
  function ReadDigits(s: seq<Byte>): int {
    if s == [] then 0 else 10 * ReadDigits(s[..|s| - 1]) + (s[|s| - 1] as int - 48)
  }

  /** The port is written as its decimal digits. */
  lemma {:induction false} DigitsReadBack(n: nat)
    ensures ReadDigits(Digits(n)) == n && Digits(n) != [] && forall i | 0 <= i < |Digits(n)| :: 48 <= Digits(n)[i] <= 57
  {
    if n >= 10 {
      DigitsReadBack(n / 10);
      assert Digits(n)[..|Digits(n)| - 1] == Digits(n / 10);
    } else {
      assert Digits(n)[..0] == [];
    }
  }

  /** Searches that differ in ST only, in port only or in address only can have different slots. */
  lemma SlotsCanDiffer()
    ensures exists p: Search, q: Search :: p.(st := q.st) == q && Slot(p) != Slot(q)
    ensures exists p: Search, q: Search :: p.(port := q.port) == q && Slot(p) != Slot(q)
    ensures exists p: Search, q: Search :: p.(address := q.address) == q && Slot(p) != Slot(q)
  {
    var p := Search([], 1, []);
    var q1, q2, q3 := p.(st := [1]), p.(port := 2), p.(address := [1]);
    SlotAddsUp(p);
    SlotAddsUp(q1);
    SlotAddsUp(q2);
    SlotAddsUp(q3);
    assert ByteSum([1]) == 1 + ByteSum([]) == 1;
    assert Decimal(1) == [49] && Decimal(2) == [50] && [49][1..] == [] && [50][1..] == [];
    assert ByteSum([49]) == 49 && ByteSum([50]) == 50;
    assert Slot(p) != Slot(q1) && Slot(p) != Slot(q2) && Slot(p) != Slot(q3);
    assert p.(st := q1.st) == q1 && p.(port := q2.port) == q2 && p.(address := q3.address) == q3;
  }

  /** The converse fails: searches that only reorder their bytes share a slot, so a first search can be suppressed. */
  lemma ReorderedTargetsCollide(address: seq<Byte>, port: int, a: seq<Byte>, b: seq<Byte>)
    ensures Slot(Search(address, port, a + b)) == Slot(Search(address, port, b + a))
  {
    SumOfConcat(a, b);
    SumOfConcat(b, a);
    SumOfConcat(address + Decimal(port), a + b);
    SumOfConcat(address + Decimal(port), b + a);
  }

  /** Two different searches, of which the second is suppressed although it is the first of its kind. */
  lemma FirstSearchCanBeSuppressed()
    ensures exists p: Search, q: Search, t: int :: p != q && t > 0 && Repeats([Seen(Slot(p), t)], Slot(q), t + 1)
  {
    var a: seq<Byte>, b: seq<Byte> := [97], [98];
    var p, q := Search([49], 1900, a + b), Search([49], 1900, b + a);
    ReorderedTargetsCollide([49], 1900, a, b);
    assert p.st[0] != q.st[0];
    assert IsLatest([Seen(Slot(p), 1)], Slot(q), 0);
    assert Repeats([Seen(Slot(p), 1)], Slot(q), 1 + 1);
  }
}
