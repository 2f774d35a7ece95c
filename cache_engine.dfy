/**
 * The cache engine as the hook runs it: an object whose fields are the
 * mapping policy, the cache, the backing memory and the two counters, and
 * whose operations update them in place. Each operation is proved against
 * the definitions in CacheModel.
 */
module CacheEngine {
  import opened CacheModel

  /** The structured trace of one access: the out-of-range error, or the
      hit/miss decision with the slot it used, the tag and the data read. */
  datatype AccessResult =
    | OutOfRange(address: int)
    | Accessed(decision: Decision, tag: int, data: int)

  /** The hit scan over a set's ways or the cache's lines: stops at the first
      valid line carrying `tag`; -1 when no line does. */
  method FindTag(lines: seq<CacheLine>, tag: int) returns (found: int)
    ensures found == FirstMatch(lines, tag)
  {
    var i := 0;
    while i < |lines|
      invariant 0 <= i <= |lines|
      invariant forall j :: 0 <= j < i ==> !Matches(lines[j], tag)
    {
      if lines[i].valid && lines[i].tag == tag {
        return i;
      }
      i := i + 1;
    }
    return -1;
  }

  /** The replacement scan: start from line 0 and move to a later line only
      when its accessTime is strictly smaller. */
  method FindLru(lines: seq<CacheLine>) returns (victim: nat)
    requires |lines| > 0
    ensures victim == LruIndex(lines)
  {
    victim := 0;
    var lruTime := lines[0].accessTime;
    var i := 1;
    while i < |lines|
      invariant 1 <= i <= |lines|
      invariant victim == LruIndex(lines[..i]) && lruTime == lines[victim].accessTime
    {
      if lines[i].accessTime < lruTime {
        victim := i;
        lruTime := lines[i].accessTime;
      }
      assert lines[..i + 1][..i] == lines[..i];
      i := i + 1;
    }
    assert lines[..i] == lines;
  }

  /** The direct branch: the indexed line hits when valid with the tag;
      otherwise it is overwritten. */
  method AccessDirect(c: CacheShape, address: int, data: int, time: int)
    returns (r: CacheShape, d: Decision)
    requires Shaped(Direct, c) && 0 <= address < MemorySize
    ensures d == Decide(Direct, c, address) && r == Access(Direct, c, address, data, time)
  {
    DirectDecomposition(address);
    var index := DirectIndex(address);
    var tag := DirectTag(address);
    var lines := c.lines;
    if lines[index].valid && lines[index].tag == tag {
      r := Flat(lines[index := lines[index].(accessTime := time)]);
      d := Hit(Line(index));
    } else {
      r := Flat(lines[index := CacheLine(true, tag, data, time)]);
      d := Miss(Line(index));
    }
  }

  /** The set-associative branch: scan the indexed set's ways for the tag;
      on a miss overwrite its LRU way. */
  method AccessSetAssociative(c: CacheShape, address: int, data: int, time: int)
    returns (r: CacheShape, d: Decision)
    requires Shaped(SetAssociative, c) && 0 <= address < MemorySize
    ensures d == Decide(SetAssociative, c, address) && r == Access(SetAssociative, c, address, data, time)
  {
    SetDecomposition(address);
    var index := SetIndex(address);
    var tag := SetTag(address);
    var ways := c.sets[index];
    var foundWay := FindTag(ways, tag);
    if foundWay >= 0 {
      r := Sets(c.sets[index := ways[foundWay := ways[foundWay].(accessTime := time)]]);
      d := Hit(Way(index, foundWay));
    } else {
      var lruWay := FindLru(ways);
      r := Sets(c.sets[index := ways[lruWay := CacheLine(true, tag, data, time)]]);
      d := Miss(Way(index, lruWay));
    }
  }

  /** The fully-associative branch: scan all lines for the address; on a
      miss overwrite the first invalid line, or else the LRU line. */
  method AccessFullyAssociative(c: CacheShape, address: int, data: int, time: int)
    returns (r: CacheShape, d: Decision)
    requires Shaped(FullyAssociative, c) && 0 <= address < MemorySize
    ensures d == Decide(FullyAssociative, c, address) && r == Access(FullyAssociative, c, address, data, time)
  {
    var tag := address;
    var lines := c.lines;
    var foundLine := FindTag(lines, tag);
    if foundLine >= 0 {
      r := Flat(lines[foundLine := lines[foundLine].(accessTime := time)]);
      d := Hit(Line(foundLine));
    } else {
      var replaceLine := FirstInvalid(lines);
      if replaceLine == -1 {
        replaceLine := FindLru(lines);
      }
      r := Flat(lines[replaceLine := CacheLine(true, tag, data, time)]);
      d := Miss(Line(replaceLine));
    }
  }

  /** The in-range part of an access, dispatched on the policy. */
  method AccessCache(m: MappingType, c: CacheShape, address: int, data: int, time: int)
    returns (r: CacheShape, d: Decision)
    requires Shaped(m, c) && 0 <= address < MemorySize
    ensures d == Decide(m, c, address) && r == Access(m, c, address, data, time)
  {
    match m {
      case Direct => r, d := AccessDirect(c, address, data, time);
      case SetAssociative => r, d := AccessSetAssociative(c, address, data, time);
      case FullyAssociative => r, d := AccessFullyAssociative(c, address, data, time);
    }
  }

  /** Only re-binds AccessKeepsInv to the cache and counter an access leaves
      behind, so that AccessInRange can close its invariant on those terms. */
  lemma InvAfterAccess(m: MappingType, c: CacheShape, address: int, now: int, r: CacheShape, next: int)
    requires Inv(m, c, now) && 0 <= now && 0 <= address < MemorySize
    requires next == now + 1 && r == Access(m, c, address, address, next)
    ensures Inv(m, r, next)
  {
    AccessKeepsInv(m, c, address, now);
  }

  class CacheSimulator {
    var mapping: MappingType
    var cache: CacheShape
    var mainMemory: seq<int>
    var accessCount: int
    var hitCount: int

    /** The backing memory is 64 cells holding their own index. */
    ghost predicate MemoryOk()
      reads this
    {
      |mainMemory| == MemorySize && forall i :: 0 <= i < MemorySize ==> mainMemory[i] == i
    }

    ghost predicate Valid()
      reads this
    {
      MemoryOk() && 0 <= hitCount <= accessCount && Inv(mapping, cache, accessCount)
    }

    /** The hook's initial state followed by its first effect: the direct
        policy, an empty cache, zero counters, memory[i] = i. */
    constructor()
      ensures Valid() && mapping == Direct && cache == EmptyCache(Direct)
      ensures accessCount == 0 && hitCount == 0 && mainMemory == seq(MemorySize, i => i)
    {
      mapping := Direct;
      cache := EmptyCache(Direct);
      mainMemory := seq(MemorySize, i => i);
      accessCount := 0;
      hitCount := 0;
      EmptyCacheInv(Direct);
    }

    /** `initializeCache(type)`: the policy-shaped empty cache and both
        counters reset; the backing memory is kept. */
    method InitializeCache(m: MappingType)
      requires MemoryOk() && m == mapping
      modifies this
      ensures Valid()
      ensures cache == EmptyCache(m) && accessCount == 0 && hitCount == 0
      ensures mapping == old(mapping) && mainMemory == old(mainMemory)
    {
      cache := EmptyCache(m);
      accessCount := 0;
      hitCount := 0;
      EmptyCacheInv(m);
    }

    /** Choosing a policy: the effect on `mappingType` runs only when the
        value changes, and then re-initialises the cache; choosing the
        current policy again leaves everything as it was. */
    method SetMappingType(m: MappingType)
      requires Valid()
      modifies this
      ensures Valid()
      ensures mapping == m && mainMemory == old(mainMemory)
      ensures m != old(mapping) ==> cache == EmptyCache(m) && accessCount == 0 && hitCount == 0
      ensures m == old(mapping) ==>
        cache == old(cache) && accessCount == old(accessCount) && hitCount == old(hitCount)
    {
      if m != mapping {
        mapping := m;
        InitializeCache(m);
      }
    }

    /** `resetCache`: re-initialise under the current policy. The result
        depends on the policy alone, so a second reset changes nothing. */
    method ResetCache()
      requires Valid()
      modifies this
      ensures Valid()
      ensures mapping == old(mapping) && cache == EmptyCache(mapping)
      ensures accessCount == 0 && hitCount == 0 && mainMemory == old(mainMemory)
    {
      InitializeCache(mapping);
    }

    /** `accessMemory(address)`. Out of range: nothing changes. In range: the
        access counter goes up by one, the hit counter by one exactly on a
        hit, and the cache becomes Access(...) at the new count. */
    method AccessMemory(address: int) returns (result: AccessResult)
      requires Valid()
      modifies this
      ensures Valid()
      ensures mapping == old(mapping) && mainMemory == old(mainMemory)
      ensures !(0 <= address < MemorySize) ==>
        result == OutOfRange(address) && cache == old(cache) &&
        accessCount == old(accessCount) && hitCount == old(hitCount)
      ensures 0 <= address < MemorySize ==>
        var d := Decide(mapping, old(cache), address);
        result == Accessed(d, AddressTag(mapping, address), address) &&
        accessCount == old(accessCount) + 1 &&
        hitCount == old(hitCount) + (if d.Hit? then 1 else 0) &&
        cache == Access(mapping, old(cache), address, address, accessCount)
    {
      if address < 0 || address >= |mainMemory| {
        return OutOfRange(address);
      }
      result := AccessInRange(address);
    }

    /** The in-range part of `accessMemory`: count the access, read the
        backing memory, update the cache and count a hit. */
    method AccessInRange(address: int) returns (result: AccessResult)
      requires Valid() && 0 <= address < MemorySize
      modifies this
      ensures Valid()
      ensures mapping == old(mapping) && mainMemory == old(mainMemory)
      ensures var d := Decide(mapping, old(cache), address);
        result == Accessed(d, AddressTag(mapping, address), address) &&
        accessCount == old(accessCount) + 1 &&
        hitCount == old(hitCount) + (if d.Hit? then 1 else 0) &&
        cache == Access(mapping, old(cache), address, address, accessCount)
    {
      ghost var before := cache;
      var data := mainMemory[address];
      assert data == address;
      var newCache, d := AccessCache(mapping, cache, address, data, accessCount + 1);
      if d.Hit? {
        hitCount := hitCount + 1;
      }
      accessCount := accessCount + 1;
      cache := newCache;
      result := Accessed(d, AddressTag(mapping, address), data);
      InvAfterAccess(mapping, before, address, old(accessCount), cache, accessCount);
    }
  }
}
