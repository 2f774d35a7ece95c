/**
 * Specification of the cache engine: an 8-line cache in front of a 64-cell
 * memory, under one of three mapping policies. This module holds the values
 * (lines, the policy-shaped cache, slots), the address split, the decision an
 * access makes (hit, or which line it replaces), the cache after an access,
 * and the invariant the engine keeps. The class in CacheEngine is proved
 * against these definitions.
 */
module CacheModel {
  import opened JsBitwise

  const MemorySize: int := 64
  const LineCount: int := 8
  const SetCount: int := 4
  const WayCount: int := 2

  datatype MappingType = Direct | SetAssociative | FullyAssociative

  /** `accessTime` is the access counter at the line's last touch, not a clock. */
  datatype CacheLine = CacheLine(valid: bool, tag: int, data: int, accessTime: int)

  const EmptyLine: CacheLine := CacheLine(false, 0, 0, 0)

  /** The cache structure: 8 flat lines (direct, fully-associative) or
      4 sets of 2 ways (set-associative). */
  datatype CacheShape = Flat(lines: seq<CacheLine>) | Sets(sets: seq<seq<CacheLine>>)

  /** A position in the cache: a line of a flat cache, or a way of a set. */
  datatype Slot = Line(index: nat) | Way(setIndex: nat, way: nat)

  /** What an in-range access does: refresh the line that hits, or replace one. */
  datatype Decision = Hit(slot: Slot) | Miss(slot: Slot)

  // ---------------------------------------------------------------------
  // Address decomposition

  /** Direct mapping: index is the low 3 bits, tag the next 3 bits. */
  function DirectIndex(address: int): int { BitAnd(address, 7) }
  function DirectTag(address: int): int { BitAnd(ShiftRight(address, 3), 7) }

  /** Set-associative mapping: set index is the low 2 bits, tag the next 4 bits. */
  function SetIndex(address: int): int { BitAnd(address, 3) }
  function SetTag(address: int): int { BitAnd(ShiftRight(address, 2), 15) }

  /** The tag a line holding `address` carries; fully-associative uses the whole address. */
  function AddressTag(m: MappingType, address: int): int
  {
    match m
    case Direct => DirectTag(address)
    case SetAssociative => SetTag(address)
    case FullyAssociative => address
  }

  /** The direct split loses nothing: the address is tag * 8 + index. */
  lemma DirectDecomposition(address: int)
    requires 0 <= address < MemorySize
    ensures 0 <= DirectIndex(address) < 8 && 0 <= DirectTag(address) < 8
    ensures address == DirectTag(address) * 8 + DirectIndex(address)
  {
    Pow2Values();
    assert DirectIndex(address) == address % 8 by { LowBits(address, 3); }
    assert ShiftRight(address, 3) == address / 8 by { ShiftNonNegative(address, 3); }
    var q := address / 8;
    assert 0 <= q < 8 by {
      DivModParts(address, 8);
    }
    assert q % 8 == q by { DivModUnique(q, 8, 0, q); }
    assert DirectTag(address) == q by { LowBits(q, 3); }
  }

  /** The set-associative split loses nothing: the address is tag * 4 + index. */
  lemma SetDecomposition(address: int)
    requires 0 <= address < MemorySize
    ensures 0 <= SetIndex(address) < 4 && 0 <= SetTag(address) < 16
    ensures address == SetTag(address) * 4 + SetIndex(address)
  {
    Pow2Values();
    assert SetIndex(address) == address % 4 by { LowBits(address, 2); }
    assert ShiftRight(address, 2) == address / 4 by { ShiftNonNegative(address, 2); }
    var q := address / 4;
    assert 0 <= q < 16 by {
      DivModParts(address, 4);
    }
    assert q % 16 == q by { DivModUnique(q, 16, 0, q); }
    assert SetTag(address) == q by { LowBits(q, 4); }
  }

  // ---------------------------------------------------------------------
  // Shape, slots and lines

  /** The cache has the shape its policy gives it. */
  predicate Shaped(m: MappingType, c: CacheShape)
  {
    match m
    case SetAssociative =>
      c.Sets? && |c.sets| == SetCount && forall x :: 0 <= x < SetCount ==> |c.sets[x]| == WayCount
    case _ => c.Flat? && |c.lines| == LineCount
  }

  /** The slots a cache of policy m has. */
  predicate SlotOf(m: MappingType, s: Slot)
  {
    match m
    case SetAssociative => s.Way? && s.setIndex < SetCount && s.way < WayCount
    case _ => s.Line? && s.index < LineCount
  }

  predicate Within(c: CacheShape, s: Slot)
  {
    match s
    case Line(i) => c.Flat? && i < |c.lines|
    case Way(x, w) => c.Sets? && x < |c.sets| && w < |c.sets[x]|
  }

  function Get(c: CacheShape, s: Slot): CacheLine
    requires Within(c, s)
  {
    match s
    case Line(i) => c.lines[i]
    case Way(x, w) => c.sets[x][w]
  }

  /** The cache with the line at s replaced; every other slot keeps its line. */
  function Put(c: CacheShape, s: Slot, line: CacheLine): (r: CacheShape)
    requires Within(c, s)
    ensures forall t :: Within(r, t) <==> Within(c, t)
    ensures Get(r, s) == line
    ensures forall t :: Within(c, t) && t != s ==> Get(r, t) == Get(c, t)
  {
    match s
    case Line(i) => Flat(c.lines[i := line])
    case Way(x, w) => Sets(c.sets[x := c.sets[x][w := line]])
  }

  predicate Matches(line: CacheLine, tag: int)
  {
    line.valid && line.tag == tag
  }

  /** The line at s is valid and carries `tag`. */
  predicate Holds(c: CacheShape, s: Slot, tag: int)
  {
    Within(c, s) && Matches(Get(c, s), tag)
  }

  /** The slots where policy m may keep `address`: the indexed line, a way of
      the indexed set, or any line. */
  predicate Eligible(m: MappingType, address: int, s: Slot)
  {
    match m
    case Direct => s.Line? && s.index == DirectIndex(address)
    case SetAssociative => s.Way? && s.setIndex == SetIndex(address) && s.way < WayCount
    case FullyAssociative => s.Line? && s.index < LineCount
  }

  /** Some line where `address` may live holds its tag. */
  ghost predicate Cached(m: MappingType, c: CacheShape, address: int)
  {
    exists s :: Eligible(m, address, s) && Holds(c, s, AddressTag(m, address))
  }

  /** The cache `initializeCache` builds: every line invalid, tag, data and time 0. */
  function EmptyCache(m: MappingType): (c: CacheShape)
    ensures Shaped(m, c)
    ensures forall s :: SlotOf(m, s) ==> Within(c, s) && Get(c, s) == EmptyLine
  {
    if m == SetAssociative then Sets(seq(SetCount, _ => seq(WayCount, _ => EmptyLine)))
    else Flat(seq(LineCount, _ => EmptyLine))
  }

  // ---------------------------------------------------------------------
  // Searches the access performs

  /** The first line, in index order, that is valid and carries `tag`; -1 if none. */
  function FirstMatch(lines: seq<CacheLine>, tag: int): (k: int)
    ensures -1 <= k < |lines|
    ensures k >= 0 ==> Matches(lines[k], tag) && forall j :: 0 <= j < k ==> !Matches(lines[j], tag)
    ensures k < 0 ==> forall j :: 0 <= j < |lines| ==> !Matches(lines[j], tag)
  {
    if |lines| == 0 then -1
    else if Matches(lines[0], tag) then 0
    else
      var k := FirstMatch(lines[1..], tag);
      if k < 0 then -1 else k + 1
  }

  /** `findIndex(line => !line.valid)`: the first invalid line; -1 if none. */
  function FirstInvalid(lines: seq<CacheLine>): (k: int)
    ensures -1 <= k < |lines|
    ensures k >= 0 ==> !lines[k].valid && forall j :: 0 <= j < k ==> lines[j].valid
    ensures k < 0 ==> forall j :: 0 <= j < |lines| ==> lines[j].valid
  {
    if |lines| == 0 then -1
    else if !lines[0].valid then 0
    else
      var k := FirstInvalid(lines[1..]);
      if k < 0 then -1 else k + 1
  }

  /** The line a left-to-right scan with strict `<` keeps: the lowest index
      among those with the smallest accessTime. */
  function LruIndex(lines: seq<CacheLine>): (k: nat)
    requires |lines| > 0
    ensures k < |lines|
    ensures forall j :: 0 <= j < |lines| ==> lines[k].accessTime <= lines[j].accessTime
    ensures forall j :: 0 <= j < k ==> lines[k].accessTime < lines[j].accessTime
  {
    if |lines| == 1 then 0
    else
      var k := LruIndex(lines[..|lines| - 1]);
      if lines[|lines| - 1].accessTime < lines[k].accessTime then |lines| - 1 else k
  }

  // ---------------------------------------------------------------------
  // One access

  /** The slot an in-range access hits, or the slot it replaces on a miss:
      the indexed line (direct); the LRU way of the set (set-associative);
      the first invalid line, else the LRU line (fully-associative). */
  function Decide(m: MappingType, c: CacheShape, address: int): (d: Decision)
    requires Shaped(m, c) && 0 <= address < MemorySize
    ensures SlotOf(m, d.slot) && Within(c, d.slot) && Eligible(m, address, d.slot)
    ensures d.Hit? <==> Cached(m, c, address)
    ensures d.Hit? ==> Holds(c, d.slot, AddressTag(m, address))
  {
    match m
    case Direct =>
      DirectDecomposition(address);
      var i := DirectIndex(address);
      assert Eligible(m, address, Line(i));
      if Matches(c.lines[i], DirectTag(address)) then Hit(Line(i)) else Miss(Line(i))
    case SetAssociative =>
      SetDecomposition(address);
      var x := SetIndex(address);
      var w := FirstMatch(c.sets[x], SetTag(address));
      if w >= 0 then assert Eligible(m, address, Way(x, w)); Hit(Way(x, w)) else Miss(Way(x, LruIndex(c.sets[x])))
    case FullyAssociative =>
      var i := FirstMatch(c.lines, address);
      if i >= 0 then assert Eligible(m, address, Line(i)); Hit(Line(i))
      else
        var f := FirstInvalid(c.lines);
        Miss(Line(if f >= 0 then f else LruIndex(c.lines)))
  }

  /** The cache after an in-range access at logical time `time` that reads
      `data` from memory. Exactly one slot changes: on a hit only its
      accessTime; on a miss it becomes valid with the address's tag and data. */
  function Access(m: MappingType, c: CacheShape, address: int, data: int, time: int): (r: CacheShape)
    requires Shaped(m, c) && 0 <= address < MemorySize
    ensures Shaped(m, r)
    ensures forall s :: Within(c, s) && s != Decide(m, c, address).slot ==> Within(r, s) && Get(r, s) == Get(c, s)
    ensures var s := Decide(m, c, address).slot;
      Within(r, s) && Holds(r, s, AddressTag(m, address)) && Get(r, s).accessTime == time
    ensures var d := Decide(m, c, address);
      Within(r, d.slot) && Get(r, d.slot).data == (if d.Hit? then Get(c, d.slot).data else data)
  {
    match Decide(m, c, address)
    case Hit(s) => Put(c, s, Get(c, s).(accessTime := time))
    case Miss(s) => Put(c, s, CacheLine(true, AddressTag(m, address), data, time))
  }

  // ---------------------------------------------------------------------
  // The invariant

  /** A valid line was written by some access: its time is in 1..now and it
      holds the data of an address that maps to its slot with its tag.
      An invalid line was never written: its time is still 0. */
  ghost predicate LineOk(m: MappingType, c: CacheShape, s: Slot, now: int)
  {
    Within(c, s) &&
    var line := Get(c, s);
    if line.valid then
      1 <= line.accessTime <= now && 0 <= line.data < MemorySize &&
      Eligible(m, line.data, s) && AddressTag(m, line.data) == line.tag
    else line.accessTime == 0
  }

  /** At most one valid line per tag where an address may live. */
  ghost predicate NoDuplicates(m: MappingType, c: CacheShape)
  {
    forall a, s1, s2 ::
      (0 <= a < MemorySize && Eligible(m, a, s1) && Eligible(m, a, s2) &&
       Holds(c, s1, AddressTag(m, a)) && Holds(c, s2, AddressTag(m, a))) ==> s1 == s2
  }

  ghost predicate Inv(m: MappingType, c: CacheShape, now: int)
  {
    Shaped(m, c) && (forall s :: SlotOf(m, s) ==> LineOk(m, c, s, now)) && NoDuplicates(m, c)
  }

  /** Two in-range addresses that may live in the same slot and have the same tag are equal. */
  lemma SameBlock(m: MappingType, a: int, b: int, s: Slot)
    requires 0 <= a < MemorySize && 0 <= b < MemorySize
    requires Eligible(m, a, s) && Eligible(m, b, s) && AddressTag(m, a) == AddressTag(m, b)
    ensures a == b
  {
    match m
    case Direct => DirectDecomposition(a); DirectDecomposition(b);
    case SetAssociative => SetDecomposition(a); SetDecomposition(b);
    case FullyAssociative =>
  }

  lemma EmptyCacheInv(m: MappingType)
    ensures Inv(m, EmptyCache(m), 0)
    ensures forall a :: 0 <= a < MemorySize ==> !Cached(m, EmptyCache(m), a)
  {
  }

  /** A hit returns the addressed memory cell's value. */
  lemma HitData(m: MappingType, c: CacheShape, address: int, now: int)
    requires Inv(m, c, now) && 0 <= address < MemorySize
    requires Decide(m, c, address).Hit?
    ensures Get(c, Decide(m, c, address).slot).data == address
  {
    var s := Decide(m, c, address).slot;
    assert LineOk(m, c, s, now);
    SameBlock(m, Get(c, s).data, address, s);
  }

  /** Each in-range access at time now + 1 that stores the addressed cell's
      value (memory[a] == a) keeps the invariant. */
  lemma AccessKeepsInv(m: MappingType, c: CacheShape, address: int, now: int)
    requires Inv(m, c, now) && 0 <= now && 0 <= address < MemorySize
    ensures Inv(m, Access(m, c, address, address, now + 1), now + 1)
  {
    var d := Decide(m, c, address);
    var r := Access(m, c, address, address, now + 1);
    forall s | SlotOf(m, s)
      ensures LineOk(m, r, s, now + 1)
    {
      assert LineOk(m, c, s, now);
      if s == d.slot && d.Hit? {
        HitData(m, c, address, now);
      }
    }
    forall a, s1, s2 |
      0 <= a < MemorySize && Eligible(m, a, s1) && Eligible(m, a, s2) &&
      Holds(r, s1, AddressTag(m, a)) && Holds(r, s2, AddressTag(m, a))
      ensures s1 == s2
    {
      if d.Hit? {
        assert Holds(c, s1, AddressTag(m, a)) && Holds(c, s2, AddressTag(m, a));
      } else if s1 != s2 {
        if s1 == d.slot {
          assert Holds(c, s2, AddressTag(m, a));
          SameBlock(m, a, address, s1);
          assert false;
        } else if s2 == d.slot {
          assert Holds(c, s1, AddressTag(m, a));
          SameBlock(m, a, address, s2);
          assert false;
        } else {
          assert Holds(c, s1, AddressTag(m, a)) && Holds(c, s2, AddressTag(m, a));
        }
      }
    }
  }

  /** Accessing the same address again right away hits the line just touched,
      which holds the addressed cell's value. */
  lemma RepeatAccessHits(m: MappingType, c: CacheShape, address: int, now: int)
    requires Inv(m, c, now) && 0 <= now && 0 <= address < MemorySize
    ensures var r := Access(m, c, address, address, now + 1);
      Decide(m, r, address) == Hit(Decide(m, c, address).slot) &&
      Get(r, Decide(m, c, address).slot).data == address
  {
    var s := Decide(m, c, address).slot;
    var r := Access(m, c, address, address, now + 1);
    AccessKeepsInv(m, c, address, now);
    assert Cached(m, r, address);
    var s2 := Decide(m, r, address).slot;
    assert s2 == s;
    HitData(m, r, address, now + 1);
  }

  // ---------------------------------------------------------------------
  // Victim selection

  /** Set-associative miss: the victim way has the smallest accessTime in its
      set, every lower way a strictly larger one; an invalid way is chosen
      whenever the set has one. */
  lemma SetAssociativeVictim(c: CacheShape, address: int, now: int)
    requires Inv(SetAssociative, c, now) && 0 <= address < MemorySize
    requires Decide(SetAssociative, c, address).Miss?
    ensures var s := Decide(SetAssociative, c, address).slot;
      var ways := c.sets[s.setIndex];
      s.setIndex == SetIndex(address) &&
      (forall w :: 0 <= w < WayCount ==> ways[s.way].accessTime <= ways[w].accessTime) &&
      (forall w :: 0 <= w < s.way ==> ways[s.way].accessTime < ways[w].accessTime) &&
      ((exists w :: 0 <= w < WayCount && !ways[w].valid) ==> !ways[s.way].valid)
  {
    var s := Decide(SetAssociative, c, address).slot;
    var ways := c.sets[s.setIndex];
    if w :| 0 <= w < WayCount && !ways[w].valid {
      assert LineOk(SetAssociative, c, Way(s.setIndex, w), now);
      assert LineOk(SetAssociative, c, s, now);
    }
  }

  /** Fully-associative miss: the victim is the first invalid line; when all
      lines are valid, the lowest-index line with the smallest accessTime. */
  lemma FullyAssociativeVictim(c: CacheShape, address: int)
    requires Shaped(FullyAssociative, c) && 0 <= address < MemorySize
    requires Decide(FullyAssociative, c, address).Miss?
    ensures var i := Decide(FullyAssociative, c, address).slot.index;
      if exists j :: 0 <= j < LineCount && !c.lines[j].valid then
        !c.lines[i].valid && forall j :: 0 <= j < i ==> c.lines[j].valid
      else
        (forall j :: 0 <= j < LineCount ==> c.lines[i].accessTime <= c.lines[j].accessTime) &&
        (forall j :: 0 <= j < i ==> c.lines[i].accessTime < c.lines[j].accessTime)
  {
  }

  // ---------------------------------------------------------------------
  // Scenarios

  /** Direct mapping: two addresses with the same index and different tags
      evict each other; the first misses again after the second. */
  lemma DirectConflict(c: CacheShape, a1: int, a2: int, now: int)
    requires Inv(Direct, c, now) && 0 <= now
    requires 0 <= a1 < MemorySize && 0 <= a2 < MemorySize
    requires DirectIndex(a1) == DirectIndex(a2) && DirectTag(a1) != DirectTag(a2)
    ensures var c1 := Access(Direct, c, a1, a1, now + 1);
      var c2 := Access(Direct, c1, a2, a2, now + 2);
      Decide(Direct, c1, a2).Miss? && Decide(Direct, c2, a1).Miss?
  {
    DirectDecomposition(a1);
    var c1 := Access(Direct, c, a1, a1, now + 1);
    var c2 := Access(Direct, c1, a2, a2, now + 2);
    var s := Line(DirectIndex(a1));
    assert Decide(Direct, c, a1).slot == s;
    assert Decide(Direct, c1, a2).slot == s;
    assert Holds(c2, s, DirectTag(a2));
  }

  /** Set-associative LRU: from an empty cache, three addresses of one set
      with distinct tags fill way 0, then way 1, then evict way 0 (the older),
      so the first misses again and the second still hits. */
  lemma SetAssociativeLru(a1: int, a2: int, a3: int)
    requires 0 <= a1 < MemorySize && 0 <= a2 < MemorySize && 0 <= a3 < MemorySize
    requires SetIndex(a1) == SetIndex(a2) == SetIndex(a3)
    requires SetTag(a1) != SetTag(a2) && SetTag(a2) != SetTag(a3) && SetTag(a1) != SetTag(a3)
    ensures var m := SetAssociative;
      var x: nat := SetIndex(a1);
      var c1 := Access(m, EmptyCache(m), a1, a1, 1);
      var c2 := Access(m, c1, a2, a2, 2);
      var c3 := Access(m, c2, a3, a3, 3);
      Decide(m, EmptyCache(m), a1) == Miss(Way(x, 0)) &&
      Decide(m, c1, a2) == Miss(Way(x, 1)) &&
      Decide(m, c2, a3) == Miss(Way(x, 0)) &&
      Decide(m, c3, a1).Miss? && Decide(m, c3, a2) == Hit(Way(x, 1))
  {
    var m := SetAssociative;
    SetDecomposition(a1);
    var x: nat := SetIndex(a1);
    var c0 := EmptyCache(m);
    EmptyCacheInv(m);
    var c1 := Access(m, c0, a1, a1, 1);
    assert Decide(m, c0, a1) == Miss(Way(x, 0));
    AccessKeepsInv(m, c0, a1, 0);
    assert Get(c1, Way(x, 1)) == EmptyLine;
    assert Decide(m, c1, a2) == Miss(Way(x, 1));
    var c2 := Access(m, c1, a2, a2, 2);
    AccessKeepsInv(m, c1, a2, 1);
    assert Get(c2, Way(x, 0)).accessTime == 1 && Get(c2, Way(x, 1)).accessTime == 2;
    assert Decide(m, c2, a3) == Miss(Way(x, 0));
    var c3 := Access(m, c2, a3, a3, 3);
    assert Holds(c3, Way(x, 0), SetTag(a3)) && Holds(c3, Way(x, 1), SetTag(a2));
    assert !Cached(m, c3, a1);
    assert Decide(m, c3, a2) == Hit(Way(x, 1));
  }
}
