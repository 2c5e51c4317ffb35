/**
 * `ChunkCache`: a direct-mapped table of W * W chunk slots around a movable
 * centre, with a one-entry memo of the last chunk handed out.  Chunk storage
 * and the chunk source are oracles; what the cache asks of them and of the
 * chunks it unloads, saves and lights is recorded in `trace`.
 */
module Chunk {
  import opened Wrappers

  /** CHUNK_CACHE_WIDTH: the side of the table, a power of two. */
  const W: int := 32
  /** The half-width `b` of the window `fits` accepts. */
  const B: int := W / 2 - 1

  function Abs(n: int): nat
  {
    if n < 0 then -n else n
  }

  /**
   * `n & (W - 1)`.  For W a power of two the two's-complement mask is the
   * Euclidean remainder, which Dafny's `%` is, negative `n` included.
   */
  function Mask(n: int): (r: int)
    ensures 0 <= r < W
    ensures (n - r) % W == 0
  {
    n % W
  }

  /** The slot index `ri = (x & (W-1)) + (z & (W-1)) * W`. */
  function SlotOf(x: int, z: int): (ri: int)
    ensures 0 <= ri < W * W
    ensures ri % W == Mask(x) && ri / W == Mask(z)
  {
    Mask(x) + Mask(z) * W
  }

  /** Two coordinates share a slot exactly when both agree modulo W. */
  lemma SameSlot(x1: int, z1: int, x2: int, z2: int)
    ensures SlotOf(x1, z1) == SlotOf(x2, z2) <==> (x1 - x2) % W == 0 && (z1 - z2) % W == 0
  {
    ModDiff(x1, x2);
    ModDiff(z1, z2);
  }

  lemma ModDiff(a: int, b: int)
    ensures a % W == b % W <==> (a - b) % W == 0
  {
    var qa, qb := a / W, b / W;
    var d := a % W - b % W;
    assert a - b == (qa - qb) * W + d;
    if d >= 0 {
      assert (a - b) % W == d;
    } else {
      assert a - b == (qa - qb - 1) * W + (d + W);
      assert (a - b) % W == d + W;
    }
  }

  /** A chunk is at most W - 2 away from any other in the window, so a window never holds a slot twice. */
  lemma WindowSlotsDistinct(xc: int, yc: int, x1: int, z1: int, x2: int, z2: int)
    requires Abs(x1 - xc) <= B && Abs(z1 - yc) <= B
    requires Abs(x2 - xc) <= B && Abs(z2 - yc) <= B
    requires SlotOf(x1, z1) == SlotOf(x2, z2)
    ensures x1 == x2 && z1 == z2
  {
    SameSlot(x1, z1, x2, z2);
    SmallMultipleIsZero(x1 - x2);
    SmallMultipleIsZero(z1 - z2);
  }

  lemma SmallMultipleIsZero(d: int)
    requires -W < d < W && d % W == 0
    ensures d == 0
  {
  }

  /** The eight neighbours of a coordinate lie in other slots than the coordinate itself. */
  lemma NeighbourSlotsDiffer(x: int, z: int, dx: int, dz: int)
    requires -1 <= dx <= 1 && -1 <= dz <= 1 && (dx != 0 || dz != 0)
    ensures SlotOf(x + dx, z + dz) != SlotOf(x, z)
  {
    SameSlot(x + dx, z + dz, x, z);
    if dx != 0 {
      assert (x + dx - x) % W != 0;
    } else {
      assert (z + dz - z) % W != 0;
    }
  }

  /** The part of `Level` the cache reads. */
  class Level {
    var time: int
    var isFindingSpawn: bool

    constructor (time: int, isFindingSpawn: bool)
      ensures this.time == time && this.isFindingSpawn == isFindingSpawn
    {
      this.time := time;
      this.isFindingSpawn := isFindingSpawn;
    }
  }

  /** The fields of a LevelChunk, as its own `shouldSave` sees them. */
  datatype ChunkState = ChunkState(x: int, z: int, terrainPopulated: bool, unsaved: bool, dontSave: bool, lastSaveTime: int)

  /** The part of `LevelChunk` the cache uses. */
  class LevelChunk {
    const x: int
    const z: int
    var terrainPopulated: bool
    var unsaved: bool
    var dontSave: bool
    var lastSaveTime: int

    constructor (x: int, z: int, terrainPopulated: bool)
      ensures this.x == x && this.z == z && this.terrainPopulated == terrainPopulated
      ensures !unsaved && !dontSave && lastSaveTime == 0
    {
      this.x := x;
      this.z := z;
      this.terrainPopulated := terrainPopulated;
      unsaved := false;
      dontSave := false;
      lastSaveTime := 0;
    }

    predicate IsAt(x': int, z': int)
    {
      x == x' && z == z'
    }

    function State(): ChunkState
      reads this
    {
      ChunkState(x, z, terrainPopulated, unsaved, dontSave, lastSaveTime)
    }
  }

  /** Where a missed chunk comes from. */
  datatype Origin = FromStorage | FromSource | NoChunk

  /** Effects the cache has on its collaborators, in order. */
  datatype Event =
    | Unloaded(chunk: LevelChunk)
    | Saved(chunk: LevelChunk)
    | EntitiesSaved(chunk: LevelChunk)
    | LavaLit(chunk: LevelChunk)
    | Loaded(chunk: LevelChunk)
    | SourcePostProcessed(x: int, z: int)
    | Flushed

  /**
   * What the loop of `save(force, listener)` did at one slot: nothing for an
   * empty slot; otherwise it saw the occupant in `state` and asked the storage
   * for its entities and/or for the chunk.
   */
  datatype Visit = Vacant | Visited(chunk: LevelChunk, state: ChunkState, entities: bool, stored: bool)

  /** The storage requests of one visit, entities first. */
  function VisitEvents(v: Visit): (es: seq<Event>)
    ensures |es| <= 2
    ensures forall e :: e in es ==> v.Visited? && (e == EntitiesSaved(v.chunk) || e == Saved(v.chunk))
    ensures v.Visited? && v.entities ==> EntitiesSaved(v.chunk) in es
    ensures v.Visited? && v.stored ==> Saved(v.chunk) in es
    ensures v.Vacant? ==> es == []
  {
    match v
    case Vacant => []
    case Visited(c, _, entities, stored) =>
      (if entities then [EntitiesSaved(c)] else []) + (if stored then [Saved(c)] else [])
  }

  /** The storage requests of a run of visits, in slot order. */
  function Events(vs: seq<Visit>): seq<Event>
  {
    if |vs| == 0 then [] else Events(vs[..|vs| - 1]) + VisitEvents(vs[|vs| - 1])
  }

  /** One more visit adds its own requests at the end. */
  lemma EventsAppend(vs: seq<Visit>, v: Visit)
    ensures Events(vs + [v]) == Events(vs) + VisitEvents(v)
  {
    assert (vs + [v])[..|vs|] == vs;
  }

  /** Every request of every visit is among the requests of the run. */
  lemma {:induction false} EventsHaveEveryVisit(vs: seq<Visit>, j: int)
    requires 0 <= j < |vs|
    ensures forall e :: e in VisitEvents(vs[j]) ==> e in Events(vs)
    decreases |vs|
  {
    if j < |vs| - 1 {
      EventsHaveEveryVisit(vs[..|vs| - 1], j);
      assert vs[..|vs| - 1][j] == vs[j];
    }
  }

  /** The run asks for nothing but the requests of its visits. */
  lemma {:induction false} EventsOnlyFromVisits(vs: seq<Visit>, e: Event)
    requires e in Events(vs)
    ensures exists j :: 0 <= j < |vs| && e in VisitEvents(vs[j])
    decreases |vs|
  {
    var p := vs[..|vs| - 1];
    if e in Events(p) {
      EventsOnlyFromVisits(p, e);
      var j :| 0 <= j < |p| && e in VisitEvents(p[j]);
      assert p[j] == vs[j];
    } else {
      assert e in VisitEvents(vs[|vs| - 1]);
    }
  }

  /** Saving without `force` asks the storage only to save chunks. */
  lemma UnforcedSaveOnlySaves(visits: seq<Visit>)
    requires forall j :: 0 <= j < |visits| && visits[j].Visited? ==> !visits[j].entities
    ensures forall e :: e in Events(visits) ==> e.Saved?
  {
    forall e | e in Events(visits)
      ensures e.Saved?
    {
      EventsOnlyFromVisits(visits, e);
    }
  }

  /** The entity and chunk requests of one visit are among the requests of the walk. */
  lemma VisitRequestsInWalk(visits: seq<Visit>, j: int)
    requires 0 <= j < |visits| && visits[j].Visited?
    ensures visits[j].entities ==> EntitiesSaved(visits[j].chunk) in Events(visits)
    ensures visits[j].stored ==> Saved(visits[j].chunk) in Events(visits)
  {
    EventsHaveEveryVisit(visits, j);
  }

  /** What the storage holds after one visit: a saved chunk is stored at its coordinate with its population. */
  function StoreVisit(m: map<(int, int), bool>, v: Visit): map<(int, int), bool>
  {
    if v.Visited? && v.stored then m[(v.chunk.x, v.chunk.z) := v.state.terrainPopulated] else m
  }

  /** What the storage holds after a run of visits, in slot order. */
  function StoreVisits(m: map<(int, int), bool>, vs: seq<Visit>): map<(int, int), bool>
  {
    if |vs| == 0 then m else StoreVisit(StoreVisits(m, vs[..|vs| - 1]), vs[|vs| - 1])
  }

  lemma StoreVisitsAppend(m: map<(int, int), bool>, vs: seq<Visit>, v: Visit)
    ensures StoreVisits(m, vs + [v]) == StoreVisit(StoreVisits(m, vs), v)
  {
    assert (vs + [v])[..|vs|] == vs;
  }

  /** A coordinate the storage can load after a save is one it held before or one a saved chunk sits at. */
  lemma {:induction false} StoredKeys(m: map<(int, int), bool>, vs: seq<Visit>, k: (int, int))
    ensures k in StoreVisits(m, vs) <==>
      k in m || exists j :: 0 <= j < |vs| && vs[j].Visited? && vs[j].stored && k == (vs[j].chunk.x, vs[j].chunk.z)
    decreases |vs|
  {
    if |vs| > 0 {
      var p := vs[..|vs| - 1];
      StoredKeys(m, p, k);
      assert forall j :: 0 <= j < |p| ==> p[j] == vs[j];
    }
  }

  /** The storage loads a saved chunk's coordinate with the population the last save there recorded. */
  lemma {:induction false} StoredLatest(m: map<(int, int), bool>, vs: seq<Visit>, j: int)
    requires 0 <= j < |vs| && vs[j].Visited? && vs[j].stored
    requires forall l :: j < l < |vs| && vs[l].Visited? && vs[l].stored ==>
      (vs[l].chunk.x, vs[l].chunk.z) != (vs[j].chunk.x, vs[j].chunk.z)
    ensures (vs[j].chunk.x, vs[j].chunk.z) in StoreVisits(m, vs)
    ensures StoreVisits(m, vs)[(vs[j].chunk.x, vs[j].chunk.z)] == vs[j].state.terrainPopulated
    decreases |vs|
  {
    if j < |vs| - 1 {
      var p := vs[..|vs| - 1];
      assert p[j] == vs[j];
      assert forall l :: j < l < |p| ==> p[l] == vs[l];
      StoredLatest(m, p, j);
    }
  }

  /** The count of saves so far, and the stop at the second save without `force`. */
  predicate Throttled(force: bool, i: int, throttle: int, stopped: bool, saved: set<int>)
  {
    throttle == |saved| && (!force ==> throttle <= 2) &&
    (stopped <==> !force && throttle == 2) && (stopped ==> 0 < i && i - 1 in saved)
  }

  /** At each visited slot, the chunk was saved exactly when it wanted saving, and what was asked of the storage. */
  ghost predicate Recorded(force: bool, shouldSave: (bool, ChunkState, int) -> bool, time: int, hasStorage: bool,
                           saved: set<int>, visits: seq<Visit>)
  {
    forall j :: 0 <= j < |visits| && visits[j].Visited? ==>
      (j in saved <==> shouldSave(force, visits[j].state, time)) &&
      visits[j].entities == (force && !visits[j].state.dontSave && hasStorage) &&
      visits[j].stored == (j in saved && hasStorage)
  }

  /** A visit recorded according to the rule extends the record. */
  lemma RecordedAppend(force: bool, shouldSave: (bool, ChunkState, int) -> bool, time: int, hasStorage: bool,
                       saved: set<int>, visits: seq<Visit>, v: Visit, wasSaved: bool)
    requires Recorded(force, shouldSave, time, hasStorage, saved, visits)
    requires |visits| !in saved
    requires v.Visited? ==>
      wasSaved == shouldSave(force, v.state, time) &&
      v.entities == (force && !v.state.dontSave && hasStorage) && v.stored == (wasSaved && hasStorage)
    requires v.Vacant? ==> !wasSaved
    ensures Recorded(force, shouldSave, time, hasStorage, if wasSaved then saved + {|visits|} else saved, visits + [v])
  {
    var saved' := if wasSaved then saved + {|visits|} else saved;
    forall j | 0 <= j < |visits| + 1 && (visits + [v])[j].Visited?
      ensures (j in saved' <==> shouldSave(force, (visits + [v])[j].state, time))
    {
      if j < |visits| {
        assert (visits + [v])[j] == visits[j];
      }
    }
  }

  /**
   * Each visit saw, against the states `entry` of the slots' occupants on entry
   * to the walk, its chunk's coordinate, population flag and `dontSave`, which
   * no visit changes; at the chunk's first visit it saw the whole entry state.
   */
  ghost predicate SawEntry(entry: seq<ChunkState>, visits: seq<Visit>)
  {
    |visits| <= |entry| &&
    forall j :: 0 <= j < |visits| && visits[j].Visited? ==>
      SeesEntry(visits[j].state, entry[j], Unvisited(visits[..j], visits[j].chunk))
  }

  /** None of `visits` was to `c`. */
  ghost predicate Unvisited(visits: seq<Visit>, c: LevelChunk)
  {
    forall k :: 0 <= k < |visits| && visits[k].Visited? ==> visits[k].chunk != c
  }

  /** A state seen at a slot agrees with the entry state on what no visit changes, and on everything at a first slot. */
  ghost predicate SeesEntry(st: ChunkState, e: ChunkState, first: bool)
  {
    st.x == e.x && st.z == e.z && st.terrainPopulated == e.terrainPopulated && st.dontSave == e.dontSave &&
    (first ==> st == e)
  }

  /** A visit to the next slot that saw its chunk as `SawEntry` demands extends it. */
  lemma SawEntryAppend(entry: seq<ChunkState>, visits: seq<Visit>, v: Visit)
    requires SawEntry(entry, visits) && |visits| < |entry|
    requires v.Visited? ==> SeesEntry(v.state, entry[|visits|], Unvisited(visits, v.chunk))
    ensures SawEntry(entry, visits + [v])
  {
  }

  class ChunkCache {
    const level: Level
    /** Whether the cache has a chunk storage. */
    const hasStorage: bool
    const hasSource: bool
    /** `LevelChunk::shouldSave(force)`, whose rule belongs to the chunk: force flag, chunk fields, level time. */
    const chunkShouldSave: (bool, ChunkState, int) -> bool
    const emptyChunk: LevelChunk
    const chunks: array<LevelChunk?>
    var xCenter: int
    var yCenter: int
    var xLast: int
    var zLast: int
    var last: LevelChunk?
    /** What the storage can load: each coordinate it holds, with the `terrainPopulated` saved for it. */
    var stored: map<(int, int), bool>
    var trace: seq<Event>
    /** Every chunk the cache has held: the empty chunk and each chunk it installed. */
    ghost var seen: set<LevelChunk>

    /** The table has W * W slots, and every real chunk sits in the slot of its own coordinate. */
    ghost predicate Valid()
      reads this`last, this`seen, chunks
    {
      chunks.Length == W * W &&
      (forall i :: 0 <= i < W * W && chunks[i] != null && chunks[i] != emptyChunk ==>
         SlotOf(chunks[i].x, chunks[i].z) == i) &&
      Chunks() <= seen
    }

    /** The memo names the chunk that occupies the memoised coordinate's slot. */
    ghost predicate MemoCoherent()
      reads this, chunks
      requires Valid()
    {
      last != null ==>
        last == chunks[SlotOf(xLast, zLast)] && (last == emptyChunk || last.IsAt(xLast, zLast))
    }

    /** Every chunk the cache can reach: the empty chunk, the occupants and the memo. */
    ghost function Chunks(): set<LevelChunk>
      reads this`last, chunks
    {
      {emptyChunk} + (set c: LevelChunk | c in chunks[..]) + (if last == null then {} else {last})
    }

    constructor (level: Level, hasStorage: bool, stored: map<(int, int), bool>, hasSource: bool,
                 chunkShouldSave: (bool, ChunkState, int) -> bool)
      ensures Valid() && MemoCoherent()
      ensures this.level == level && this.hasStorage == hasStorage && this.stored == stored && this.hasSource == hasSource
      ensures this.chunkShouldSave == chunkShouldSave
      ensures fresh(chunks) && fresh(emptyChunk) && emptyChunk.IsAt(0, 0)
      ensures forall i :: 0 <= i < W * W ==> chunks[i] == null
      ensures last == null && trace == [] && seen == {emptyChunk}
    {
      this.level := level;
      this.hasStorage := hasStorage;
      this.stored := stored;
      this.hasSource := hasSource;
      this.chunkShouldSave := chunkShouldSave;
      emptyChunk := new LevelChunk(0, 0, false);
      chunks := new LevelChunk?[W * W](_ => null);
      xCenter, yCenter := 0, 0;
      xLast, zLast, last := 0, 0, null;
      trace := [];
      seen := {emptyChunk};
    }

    /** `centerOn`: moves the window; nothing else changes. */
    method CenterOn(x: int, y: int)
      modifies this`xCenter, this`yCenter
      ensures xCenter == x && yCenter == y
      ensures old(Valid()) ==> Valid() && (old(MemoCoherent()) ==> MemoCoherent())
    {
      xCenter := x;
      yCenter := y;
    }

    /** `fits`: the coordinate is at most B from the centre on both axes. */
    predicate Fits(x: int, y: int)
      reads this
      ensures Fits(x, y) <==> Abs(x - xCenter) <= B && Abs(y - yCenter) <= B
    {
      x >= xCenter - B && y >= yCenter - B && x <= xCenter + B && y <= yCenter + B
    }

    predicate MemoHit(x: int, z: int)
      reads this
    {
      x == xLast && z == zLast && last != null
    }

    /** The slot of (x, z) holds the empty chunk or the chunk at (x, z). */
    predicate SlotHolds(x: int, z: int)
      reads this, chunks
      requires chunks.Length == W * W
    {
      var c := chunks[SlotOf(x, z)];
      c != null && (c == emptyChunk || c.IsAt(x, z))
    }

    /** `hasChunk`. */
    predicate HasChunk(x: int, z: int)
      reads this, chunks
      requires chunks.Length == W * W
      ensures HasChunk(x, z) ==> Fits(x, z)
      ensures Fits(x, z) && MemoHit(x, z) ==> HasChunk(x, z)
      ensures !MemoHit(x, z) ==> (HasChunk(x, z) <==> Fits(x, z) && SlotHolds(x, z))
    {
      if !Fits(x, z) then false
      else if x == xLast && z == zLast && last != null then true
      else
        var ri := SlotOf(x, z);
        chunks[ri] != null && (chunks[ri] == emptyChunk || chunks[ri].IsAt(x, z))
    }

    /** The memo only saves time: while it is coherent, `hasChunk` is the window test and the slot test. */
    lemma HasChunkIgnoresMemo(x: int, z: int)
      requires Valid() && MemoCoherent()
      ensures HasChunk(x, z) <==> Fits(x, z) && SlotHolds(x, z)
    {
    }

    /** Inside the window, a real chunk answers `hasChunk` only for its own coordinate. */
    lemma HasChunkOnlyAtOwnCoordinate(x: int, z: int)
      requires Valid() && MemoCoherent()
      requires HasChunk(x, z) && chunks[SlotOf(x, z)] != emptyChunk
      ensures chunks[SlotOf(x, z)] != null && chunks[SlotOf(x, z)].IsAt(x, z)
      ensures forall x', z' :: Fits(x', z') && SlotOf(x', z') == SlotOf(x, z) ==> x' == x && z' == z
    {
      forall x', z' | Fits(x', z') && SlotOf(x', z') == SlotOf(x, z)
        ensures x' == x && z' == z
      {
        WindowSlotsDistinct(xCenter, yCenter, x', z', x, z);
      }
    }

    /** `getChunk` goes past the memo and the window test. */
    ghost predicate Reaches(x: int, z: int)
      reads this, level
    {
      !MemoHit(x, z) && (level.isFindingSpawn || Fits(x, z))
    }

    /** `getChunk` has to fetch: it goes past the memo and the window, and the slot does not hold the chunk. */
    ghost predicate Misses(x: int, z: int)
      reads this, chunks, level
      requires chunks.Length == W * W
    {
      Reaches(x, z) && !HasChunk(x, z)
    }

    /** What `getChunk` returns when it does not fetch. */
    ghost function Lookup(x: int, z: int): LevelChunk?
      reads this, chunks, level
      requires chunks.Length == W * W
    {
      if MemoHit(x, z) then last
      else if !level.isFindingSpawn && !Fits(x, z) then emptyChunk
      else chunks[SlotOf(x, z)]
    }

    /** Where `load` and then the source take a missed chunk from. */
    function OriginOf(x: int, z: int): (o: Origin)
      reads this`stored
      ensures o == FromStorage <==> hasStorage && (x, z) in stored
      ensures o == FromSource <==> hasStorage && (x, z) !in stored && hasSource
    {
      if !hasStorage then NoChunk
      else if (x, z) in stored then FromStorage
      else if hasSource then FromSource
      else NoChunk
    }

    /** The effects of evicting the occupant `o` of a slot: unload, then save and save entities. */
    function Eviction(o: LevelChunk?): (es: seq<Event>)
      ensures o == null ==> es == []
      ensures o != null && !hasStorage ==> es == [Unloaded(o)]
      ensures o != null && hasStorage ==> es == [Unloaded(o), Saved(o), EntitiesSaved(o)]
    {
      if o == null then []
      else [Unloaded(o)] + (if hasStorage then [Saved(o), EntitiesSaved(o)] else [])
    }

    /** What the storage holds once the occupant `o` of a slot has been saved on eviction. */
    function EvictedStore(o: LevelChunk?): map<(int, int), bool>
      reads this`stored, o
    {
      if o == null || !hasStorage then stored else stored[(o.x, o.z) := o.terrainPopulated]
    }

    /**
     * `save(LevelChunk&)`: only when there is a storage, stamps the level time and
     * saves the chunk, which `load` then finds at its coordinate.
     */
    method SaveChunk(c: LevelChunk)
      modifies this`trace, this`stored, c`lastSaveTime
      ensures hasStorage ==>
        c.lastSaveTime == level.time && trace == old(trace) + [Saved(c)] &&
        stored == old(stored)[(c.x, c.z) := c.terrainPopulated]
      ensures !hasStorage ==> c.lastSaveTime == old(c.lastSaveTime) && trace == old(trace) && stored == old(stored)
    {
      if !hasStorage {
        return;
      }
      c.lastSaveTime := level.time;
      stored := stored[(c.x, c.z) := c.terrainPopulated];
      trace := trace + [Saved(c)];
    }

    /** `storage->flush()`, when there is a storage. */
    method Flush()
      modifies this`trace
      ensures trace == old(trace) + if hasStorage then [Flushed] else []
    {
      if hasStorage {
        trace := trace + [Flushed];
      }
    }

    /** `saveEntities`: asks the storage, when there is one, to save the chunk's entities. */
    method SaveEntities(c: LevelChunk)
      modifies this`trace
      ensures trace == old(trace) + if hasStorage then [EntitiesSaved(c)] else []
    {
      if !hasStorage {
        return;
      }
      trace := trace + [EntitiesSaved(c)];
    }

    /** `load`: the empty chunk without storage; otherwise the stored chunk stamped with the level time, or null. */
    method Load(x: int, z: int) returns (c: LevelChunk?)
      ensures !hasStorage ==> c == emptyChunk
      ensures hasStorage && (x, z) !in stored ==> c == null
      ensures hasStorage && (x, z) in stored ==>
        c != null && fresh(c) && c.IsAt(x, z) && c.lastSaveTime == level.time &&
        c.terrainPopulated == stored[(x, z)] && !c.unsaved && !c.dontSave
    {
      if !hasStorage {
        return emptyChunk;
      }
      if (x, z) !in stored {
        return null;
      }
      c := new LevelChunk(x, z, stored[(x, z)]);
      c.lastSaveTime := level.time;
    }

    /** `source->getChunk(x, z)`: a new chunk at (x, z) whose terrain is not yet populated. */
    method Generate(x: int, z: int) returns (c: LevelChunk)
      requires hasSource
      ensures fresh(c) && c.IsAt(x, z) && !c.terrainPopulated && !c.unsaved && !c.dontSave
    {
      c := new LevelChunk(x, z, false);
    }

    /** Lines 54-59 of `getChunk`: unload the occupant of the slot, then save it and its entities. */
    method Evict(o: LevelChunk)
      modifies this`trace, this`stored, o`lastSaveTime
      ensures trace == old(trace) + Eviction(o)
      ensures stored == old(EvictedStore(o))
      ensures hasStorage ==> o.lastSaveTime == level.time
      ensures !hasStorage ==> o.lastSaveTime == old(o.lastSaveTime)
    {
      trace := trace + [Unloaded(o)];
      SaveChunk(o);
      SaveEntities(o);
    }

    /** Lines 61-74 of `getChunk`: take the chunk from storage, else from the source, else the empty chunk, and install it. */
    method Install(x: int, z: int) returns (c: LevelChunk)
      requires Valid()
      modifies this`trace, this`seen, chunks
      ensures Valid()
      ensures c == chunks[SlotOf(x, z)] && (c == emptyChunk || c.IsAt(x, z))
      ensures forall j :: 0 <= j < W * W && j != SlotOf(x, z) ==> chunks[j] == old(chunks[j])
      ensures trace == old(trace) + [LavaLit(c), Loaded(c)]
      ensures OriginOf(x, z) == NoChunk ==> c == emptyChunk
      ensures OriginOf(x, z) == FromStorage ==>
        fresh(c) && c.lastSaveTime == level.time && c.terrainPopulated == stored[(x, z)]
      ensures OriginOf(x, z) == FromSource ==> fresh(c) && !c.terrainPopulated
      // a new chunk starts neither unsaved nor exempt from saving
      ensures fresh(c) ==> !c.unsaved && !c.dontSave
      ensures seen == old(seen) + {c}
    {
      var fetched := Load(x, z);
      if fetched == null {
        if !hasSource {
          fetched := emptyChunk;
        } else {
          fetched := Generate(x, z);
        }
      }
      c := fetched;
      chunks[SlotOf(x, z)] := c;
      trace := trace + [LavaLit(c), Loaded(c)];
      seen := seen + {c};
    }

    /** Lines 54-74 of `getChunk`: evict the occupant of the slot, fetch the chunk and install it. */
    method Refill(x: int, z: int) returns (c: LevelChunk)
      requires Valid()
      modifies this`trace, this`stored, this`seen, chunks, seen
      ensures Valid()
      ensures c == chunks[SlotOf(x, z)] && (c == emptyChunk || c.IsAt(x, z))
      ensures forall j :: 0 <= j < W * W && j != SlotOf(x, z) ==> chunks[j] == old(chunks[j])
      ensures trace == old(trace) + Eviction(old(chunks[SlotOf(x, z)])) + [LavaLit(c), Loaded(c)]
      // the storage gets the evicted occupant before `load` asks it for (x, z)
      ensures stored == old(EvictedStore(chunks[SlotOf(x, z)]))
      ensures old(chunks[SlotOf(x, z)]) != null && hasStorage ==>
        old(chunks[SlotOf(x, z)]).lastSaveTime == level.time
      // the eviction only stamps the occupant, and only when there is a storage
      ensures forall d :: d in old(seen) && d != old(chunks[SlotOf(x, z)]) ==> unchanged(d)
      ensures forall d :: d in old(seen) ==>
        d.terrainPopulated == old(d.terrainPopulated) && d.unsaved == old(d.unsaved) && d.dontSave == old(d.dontSave)
      ensures !hasStorage ==> forall d :: d in old(seen) ==> d.lastSaveTime == old(d.lastSaveTime)
      ensures OriginOf(x, z) == NoChunk ==> c == emptyChunk
      ensures OriginOf(x, z) == FromStorage ==>
        fresh(c) && c.lastSaveTime == level.time && c.terrainPopulated == stored[(x, z)]
      ensures OriginOf(x, z) == FromSource ==> fresh(c) && !c.terrainPopulated
      // a new chunk starts neither unsaved nor exempt from saving
      ensures fresh(c) ==> !c.unsaved && !c.dontSave
      ensures seen == old(seen) + {c}
    {
      var o := chunks[SlotOf(x, z)];
      if o != null {
        Evict(o);
      }
      ghost var evicted := trace;
      c := Install(x, z);
      assert evicted == old(trace) + Eviction(o);
    }

    /** `getChunk`. */
    method GetChunk(x: int, z: int) returns (r: LevelChunk)
      requires Valid()
      modifies this, chunks, seen
      decreases if Misses(x, z) then 5 else 0
      ensures Valid()
      ensures old(MemoCoherent()) ==> MemoCoherent()
      ensures xCenter == old(xCenter) && yCenter == old(yCenter)
      ensures forall j :: 0 <= j < W * W && j != SlotOf(x, z) ==> chunks[j] == old(chunks[j])
      // the memo answers first, even for a coordinate the window has since left
      ensures old(MemoHit(x, z)) ==> r == old(last) && unchanged(this)
      // outside the window the empty chunk, and no change
      ensures !old(MemoHit(x, z)) && !level.isFindingSpawn && !old(Fits(x, z)) ==>
        r == emptyChunk && unchanged(this)
      // otherwise the memo ends on (x, z) and its slot, which holds the answer
      ensures old(Reaches(x, z)) ==>
        xLast == x && zLast == z && last == r && r == chunks[SlotOf(x, z)] &&
        (r == emptyChunk || r.IsAt(x, z)) && MemoCoherent()
      // no fetch: only the memo may change
      ensures !old(Misses(x, z)) ==>
        r == old(Lookup(x, z)) && chunks[..] == old(chunks[..]) && trace == old(trace) &&
        unchanged(old(seen)) && seen == old(seen)
      // a fetch: the old occupant is evicted (unloaded, and saved with a storage), then the new one lit and loaded
      ensures old(Misses(x, z)) ==>
        old(trace) + Eviction(old(chunks[SlotOf(x, z)])) + [LavaLit(r), Loaded(r)] <= trace
      ensures old(Misses(x, z)) && old(chunks[SlotOf(x, z)]) != null && hasStorage ==>
        old(chunks[SlotOf(x, z)]).lastSaveTime == level.time
      ensures old(Misses(x, z)) && OriginOf(x, z) == NoChunk ==> r == emptyChunk
      ensures old(Misses(x, z)) && OriginOf(x, z) == FromStorage ==>
        fresh(r) && r.IsAt(x, z) && r.lastSaveTime == level.time
      ensures old(Misses(x, z)) && OriginOf(x, z) == FromStorage && stored[(x, z)] ==> r.terrainPopulated
      ensures old(Misses(x, z)) && OriginOf(x, z) == FromSource ==> fresh(r) && r.IsAt(x, z)
      // a fetch stores the evicted occupant, which is all that reaches the storage
      ensures stored == if old(Misses(x, z)) then old(EvictedStore(chunks[SlotOf(x, z)])) else old(stored)
      ensures seen == if old(Misses(x, z)) then old(seen) + {r} else old(seen)
      // only the evicted occupant is stamped; no chunk loses its population or changes `dontSave`
      ensures forall d :: d in old(seen) && (d != old(chunks[SlotOf(x, z)]) || !hasStorage) ==>
        d.lastSaveTime == old(d.lastSaveTime)
      ensures forall d :: d in old(seen) ==>
        d.dontSave == old(d.dontSave) && (old(d.terrainPopulated) ==> d.terrainPopulated)
      // the fetched chunk is populated when the 2x2 block it starts is present
      ensures old(Misses(x, z)) && old(HasChunk(x + 1, z + 1) && HasChunk(x, z + 1) && HasChunk(x + 1, z)) ==>
        r.terrainPopulated
      // a new chunk is not exempt from saving, and only post-processing by a source marks it unsaved
      ensures old(Misses(x, z)) && fresh(r) ==> !r.dontSave && (!hasSource ==> !r.unsaved)
      // no `unsaved` flag of a chunk held before is cleared, and none changes without a source
      ensures forall d :: d in old(seen) ==> (old(d.unsaved) ==> d.unsaved) && (!hasSource ==> d.unsaved == old(d.unsaved))
    {
      if x == xLast && z == zLast && last != null {
        return last;
      }
      if !level.isFindingSpawn && !Fits(x, z) {
        return emptyChunk;
      }
      var ri := SlotOf(x, z);
      if !HasChunk(x, z) {
        var _ := Fetch(x, z);
      }
      xLast := x;
      zLast := z;
      last := chunks[ri];
      r := chunks[ri];
    }

    /** Lines 52-83 of `getChunk`, on a miss: refill the slot, then post-process the new chunk and its neighbours. */
    method Fetch(x: int, z: int) returns (c: LevelChunk)
      requires Valid() && !MemoHit(x, z) && !HasChunk(x, z)
      modifies this, chunks, seen
      decreases 4
      ensures Valid()
      ensures xCenter == old(xCenter) && yCenter == old(yCenter)
      ensures forall j :: 0 <= j < W * W && j != SlotOf(x, z) ==> chunks[j] == old(chunks[j])
      ensures c == chunks[SlotOf(x, z)] && (c == emptyChunk || c.IsAt(x, z))
      ensures old(trace) + Eviction(old(chunks[SlotOf(x, z)])) + [LavaLit(c), Loaded(c)] <= trace
      ensures old(chunks[SlotOf(x, z)]) != null && hasStorage ==>
        old(chunks[SlotOf(x, z)]).lastSaveTime == level.time
      ensures OriginOf(x, z) == NoChunk ==> c == emptyChunk
      ensures OriginOf(x, z) == FromStorage ==> fresh(c) && c.IsAt(x, z) && c.lastSaveTime == level.time
      ensures OriginOf(x, z) == FromStorage && stored[(x, z)] ==> c.terrainPopulated
      ensures OriginOf(x, z) == FromSource ==> fresh(c) && c.IsAt(x, z)
      ensures stored == old(EvictedStore(chunks[SlotOf(x, z)]))
      ensures seen == old(seen) + {c}
      ensures forall d :: d in old(seen) && (d != old(chunks[SlotOf(x, z)]) || !hasStorage) ==>
        d.lastSaveTime == old(d.lastSaveTime)
      ensures forall d :: d in old(seen) ==>
        d.dontSave == old(d.dontSave) && (old(d.terrainPopulated) ==> d.terrainPopulated)
      // the fetched chunk is populated when the 2x2 block it starts is present
      ensures old(HasChunk(x + 1, z + 1) && HasChunk(x, z + 1) && HasChunk(x + 1, z)) ==> c.terrainPopulated
      // a new chunk is not exempt from saving, and only post-processing by a source marks it unsaved
      ensures fresh(c) ==> !c.dontSave && (!hasSource ==> !c.unsaved)
      // no `unsaved` flag of a chunk held before is cleared, and none changes without a source
      ensures forall d :: d in old(seen) ==> (old(d.unsaved) ==> d.unsaved) && (!hasSource ==> d.unsaved == old(d.unsaved))
    {
      ghost var before := HasChunk(x + 1, z + 1) && HasChunk(x, z + 1) && HasChunk(x + 1, z);
      NeighbourSlotsDiffer(x, z, 1, 1);
      NeighbourSlotsDiffer(x, z, 0, 1);
      NeighbourSlotsDiffer(x, z, 1, 0);
      ghost var n1, n2, n3 := chunks[SlotOf(x + 1, z + 1)], chunks[SlotOf(x, z + 1)], chunks[SlotOf(x + 1, z)];
      c := Refill(x, z);
      assert chunks[SlotOf(x + 1, z + 1)] == n1 && chunks[SlotOf(x, z + 1)] == n2 && chunks[SlotOf(x + 1, z)] == n3;
      assert before == (HasChunk(x + 1, z + 1) && HasChunk(x, z + 1) && HasChunk(x + 1, z));
      PostProcessNeighbours(x, z);
    }

    /** Lines 76-83 of `getChunk`: post-process the new chunk and its west, north and north-west neighbours when the 2x2 block each one starts is present. */
    method PostProcessNeighbours(x: int, z: int)
      requires Valid()
      requires SlotHolds(x, z) && !MemoHit(x, z)
      modifies this, chunks, seen
      decreases 3
      ensures Valid()
      ensures xCenter == old(xCenter) && yCenter == old(yCenter)
      ensures chunks[..] == old(chunks[..])
      ensures old(trace) <= trace
      ensures seen == old(seen)
      ensures stored == old(stored)
      ensures forall d :: d in old(seen) ==>
        d.lastSaveTime == old(d.lastSaveTime) && d.dontSave == old(d.dontSave) &&
        (old(d.terrainPopulated) ==> d.terrainPopulated)
      ensures old(HasChunk(x + 1, z + 1) && HasChunk(x, z + 1) && HasChunk(x + 1, z)) ==>
        chunks[SlotOf(x, z)].terrainPopulated
      // no `unsaved` flag of a chunk held before is cleared, and none changes without a source
      ensures forall d :: d in old(seen) ==> (old(d.unsaved) ==> d.unsaved) && (!hasSource ==> d.unsaved == old(d.unsaved))
    {
      var here := chunks[SlotOf(x, z)];
      if !here.terrainPopulated && HasChunk(x + 1, z + 1) && HasChunk(x, z + 1) && HasChunk(x + 1, z) {
        PostProcess(x, z);
      }
      PostProcessIfBlockPresent(x - 1, z, x - 1, z + 1, x, z + 1);
      PostProcessIfBlockPresent(x, z - 1, x + 1, z - 1, x + 1, z);
      PostProcessIfBlockPresent(x - 1, z - 1, x, z - 1, x - 1, z);
    }

    /**
     * One of the three neighbour steps of `getChunk`: when (a, b) is present and
     * not populated and the two other named chunks are present, post-process it.
     * The source's conditions are pure `hasChunk` tests around one `getChunk`,
     * so their order among themselves does not matter.
     */
    method PostProcessIfBlockPresent(a: int, b: int, p1: int, q1: int, p2: int, q2: int)
      requires Valid()
      modifies this, chunks, seen
      decreases 2
      ensures Valid()
      ensures xCenter == old(xCenter) && yCenter == old(yCenter)
      ensures chunks[..] == old(chunks[..])
      ensures old(trace) <= trace
      ensures seen == old(seen)
      ensures stored == old(stored)
      ensures forall d :: d in old(seen) ==>
        d.lastSaveTime == old(d.lastSaveTime) && d.dontSave == old(d.dontSave) &&
        (old(d.terrainPopulated) ==> d.terrainPopulated)
      // (a, b) ends populated when it and the two other chunks of its block are present
      ensures old(HasChunk(a, b)) && Fits(p1, q1) && old(SlotHolds(p1, q1)) && Fits(p2, q2) && old(SlotHolds(p2, q2)) ==>
        old(Lookup(a, b)) != null && old(Lookup(a, b)).terrainPopulated
      // no `unsaved` flag of a chunk held before is cleared, and none changes without a source
      ensures forall d :: d in old(seen) ==> (old(d.unsaved) ==> d.unsaved) && (!hasSource ==> d.unsaved == old(d.unsaved))
    {
      if HasChunk(a, b) {
        var c := GetChunk(a, b);
        if !c.terrainPopulated && HasChunk(p1, q1) && HasChunk(p2, q2) && HasChunk(a, b) {
          PostProcess(a, b);
        }
      }
    }

    /** `postProcess`: populates the chunk `getChunk` yields, once; the source is told and the chunk marked unsaved only when there is a source. */
    method PostProcess(x: int, z: int)
      requires Valid()
      modifies this, chunks, seen
      decreases if Misses(x, z) then 6 else 1
      ensures Valid()
      ensures old(MemoCoherent()) ==> MemoCoherent()
      ensures xCenter == old(xCenter) && yCenter == old(yCenter)
      // the memo `getChunk` leaves: on (x, z) and its slot once past the memo and the window, else as it was
      ensures old(Reaches(x, z)) ==> xLast == x && zLast == z && last == chunks[SlotOf(x, z)]
      ensures !old(Reaches(x, z)) ==> xLast == old(xLast) && zLast == old(zLast) && last == old(last)
      ensures stored == if old(Misses(x, z)) then old(EvictedStore(chunks[SlotOf(x, z)])) else old(stored)
      ensures forall d :: d in old(seen) ==>
        d.dontSave == old(d.dontSave) && (old(d.terrainPopulated) ==> d.terrainPopulated)
      ensures old(Misses(x, z)) ==>
        chunks[SlotOf(x, z)] != null && chunks[SlotOf(x, z)].terrainPopulated &&
        (chunks[SlotOf(x, z)] == emptyChunk || chunks[SlotOf(x, z)].IsAt(x, z)) &&
        (chunks[SlotOf(x, z)] == emptyChunk || fresh(chunks[SlotOf(x, z)])) &&
        seen == old(seen) + {chunks[SlotOf(x, z)]}
      // a fetch: the old occupant is evicted (unloaded, and saved with a storage), then the new one lit and loaded
      ensures old(Misses(x, z)) ==>
        old(trace) + Eviction(old(chunks[SlotOf(x, z)])) + [LavaLit(chunks[SlotOf(x, z)]), Loaded(chunks[SlotOf(x, z)])] <= trace
      ensures old(Misses(x, z)) ==> forall j :: 0 <= j < W * W && j != SlotOf(x, z) ==> chunks[j] == old(chunks[j])
      // the fetched chunk: the empty chunk when there is none to take, else a new chunk at (x, z), stamped when loaded
      ensures old(Misses(x, z)) && OriginOf(x, z) == NoChunk ==> chunks[SlotOf(x, z)] == emptyChunk
      ensures old(Misses(x, z)) && OriginOf(x, z) == FromStorage ==>
        fresh(chunks[SlotOf(x, z)]) && chunks[SlotOf(x, z)].IsAt(x, z) && chunks[SlotOf(x, z)].lastSaveTime == level.time
      ensures old(Misses(x, z)) && OriginOf(x, z) == FromSource ==>
        fresh(chunks[SlotOf(x, z)]) && chunks[SlotOf(x, z)].IsAt(x, z)
      // a new chunk is not exempt from saving, and only post-processing by a source marks it unsaved
      ensures old(Misses(x, z)) && fresh(chunks[SlotOf(x, z)]) ==>
        !chunks[SlotOf(x, z)].dontSave && (!hasSource ==> !chunks[SlotOf(x, z)].unsaved)
      ensures forall d :: d in old(seen) && (d != old(chunks[SlotOf(x, z)]) || !hasStorage) ==>
        d.lastSaveTime == old(d.lastSaveTime)
      ensures !old(Misses(x, z)) ==>
        var c := old(Lookup(x, z));
        c != null && c.terrainPopulated &&
        chunks[..] == old(chunks[..]) && seen == old(seen) &&
        unchanged(old(seen) - {c}) &&
        c.lastSaveTime == old(c.lastSaveTime) && c.dontSave == old(c.dontSave) &&
        (old(c.terrainPopulated) ==> trace == old(trace) && c.unsaved == old(c.unsaved)) &&
        (!old(c.terrainPopulated) ==>
           trace == old(trace) + (if hasSource then [SourcePostProcessed(x, z)] else []) &&
           c.unsaved == (hasSource || old(c.unsaved)))
      // no `unsaved` flag of a chunk held before is cleared, and none changes without a source
      ensures forall d :: d in old(seen) ==> (old(d.unsaved) ==> d.unsaved) && (!hasSource ==> d.unsaved == old(d.unsaved))
    {
      var c := GetChunk(x, z);
      Populate(c, x, z);
    }

    /** Lines 118-125 of `postProcess`: populate the chunk once; with a source, tell it and mark the chunk unsaved. */
    method Populate(c: LevelChunk, x: int, z: int)
      modifies this`trace, c`terrainPopulated, c`unsaved
      ensures c.terrainPopulated
      ensures old(c.terrainPopulated) ==> trace == old(trace) && c.unsaved == old(c.unsaved)
      ensures !old(c.terrainPopulated) ==>
        trace == old(trace) + (if hasSource then [SourcePostProcessed(x, z)] else []) &&
        c.unsaved == (hasSource || old(c.unsaved))
    {
      if !c.terrainPopulated {
        c.terrainPopulated := true;
        if hasSource {
          trace := trace + [SourcePostProcessed(x, z)];
          c.unsaved := true;
        }
      }
    }

    /**
     * The body of the loop of `save(force, listener)` for the slot `i`, occupied
     * by `c`; the chunks saved at the slots of `saved` keep their stamps.
     */
    method VisitSlot(ghost i: int, c: LevelChunk, force: bool, ghost saved: set<int>, ghost entry: seq<ChunkState>)
      returns (wasSaved: bool, ghost v: Visit)
      requires 0 <= i < chunks.Length && chunks[i] == c && Stamped(i, saved) && KeptOutside(entry, saved)
      requires !hasStorage ==> TimesKept(entry)
      modifies this`trace, this`stored, c`unsaved, c`lastSaveTime
      ensures Stamped(i + 1, if wasSaved then saved + {i} else saved)
      ensures KeptOutside(entry, if wasSaved then saved + {i} else saved)
      ensures !hasStorage ==> TimesKept(entry) && c.lastSaveTime == old(c.lastSaveTime)
      ensures wasSaved == chunkShouldSave(force, old(c.State()), level.time)
      ensures v == Visited(c, old(c.State()), force && !c.dontSave && hasStorage, wasSaved && hasStorage)
      ensures trace == old(trace) + VisitEvents(v)
      ensures stored == StoreVisit(old(stored), v)
      ensures wasSaved ==> !c.unsaved && (hasStorage ==> c.lastSaveTime == level.time)
      ensures !wasSaved ==> c.unsaved == old(c.unsaved) && c.lastSaveTime == old(c.lastSaveTime)
    {
      ghost var st := c.State();
      if force && !c.dontSave {
        SaveEntities(c);
      }
      wasSaved := chunkShouldSave(force, c.State(), level.time);
      if wasSaved {
        SaveChunk(c);
        c.unsaved := false;
      }
      v := Visited(c, st, force && !c.dontSave && hasStorage, wasSaved && hasStorage);
      if !hasStorage {
        forall j | 0 <= j < chunks.Length && chunks[j] != null
          ensures chunks[j].lastSaveTime == old(chunks[j].lastSaveTime)
        {
        }
      }
    }

    /** The first `i` visits were made at the first `i` slots, to their occupants. */
    ghost predicate Linked(i: int, visits: seq<Visit>)
      reads chunks
    {
      chunks.Length == W * W && 0 <= i <= W * W && |visits| == i &&
      forall j :: 0 <= j < i ==>
        (visits[j].Vacant? <==> chunks[j] == null) && (visits[j].Visited? ==> visits[j].chunk == chunks[j])
    }

    /** The chunk of every slot in `saved`, among the first `i`, has its flag cleared and its time stamped. */
    ghost predicate Stamped(i: int, saved: set<int>)
      reads level`time, chunks, chunks[..]`unsaved, chunks[..]`lastSaveTime
    {
      forall j :: j in saved ==>
        0 <= j < i && 0 <= j < chunks.Length && chunks[j] != null &&
        !chunks[j].unsaved && (hasStorage ==> chunks[j].lastSaveTime == level.time)
    }

    /** What the loop of `save(force, listener)` keeps after visiting the first `i` slots. */
    ghost predicate SaveProgress(force: bool, i: int, throttle: int, stopped: bool, saved: set<int>, visits: seq<Visit>)
      reads level`time, chunks, chunks[..]`unsaved, chunks[..]`lastSaveTime
    {
      Throttled(force, i, throttle, stopped, saved) && Linked(i, visits) &&
      Recorded(force, chunkShouldSave, level.time, hasStorage, saved, visits) && Stamped(i, saved)
    }

    /** The chunk of every slot whose chunk sits in no slot of `saved` still has the flag and time of `entry`. */
    ghost predicate KeptOutside(entry: seq<ChunkState>, saved: set<int>)
      reads chunks, chunks[..]`unsaved, chunks[..]`lastSaveTime
    {
      |entry| == chunks.Length &&
      forall j :: (0 <= j < chunks.Length && chunks[j] != null &&
                   forall k :: k in saved && 0 <= k < chunks.Length ==> chunks[k] != chunks[j]) ==>
        entry[j].unsaved == chunks[j].unsaved && entry[j].lastSaveTime == chunks[j].lastSaveTime
    }

    /** Every chunk in a slot still has the save time of `entry`. */
    ghost predicate TimesKept(entry: seq<ChunkState>)
      reads chunks, chunks[..]`lastSaveTime
    {
      |entry| == chunks.Length &&
      forall j :: 0 <= j < chunks.Length && chunks[j] != null ==> entry[j].lastSaveTime == chunks[j].lastSaveTime
    }

    /** The state of the chunks in the first `n` slots, `ChunkState(0, 0, false, false, false, 0)` for an empty one. */
    ghost function States(n: nat): (f: seq<ChunkState>)
      requires n <= chunks.Length
      reads chunks, chunks[..]
      ensures |f| == n
      ensures forall j :: 0 <= j < n && chunks[j] != null ==> f[j] == chunks[j].State()
    {
      if n == 0 then []
      else States(n - 1) + [if chunks[n - 1] == null then ChunkState(0, 0, false, false, false, 0) else chunks[n - 1].State()]
    }

    /** Every occupant still has the coordinate, population flag and `dontSave` of `entry`. */
    ghost predicate EntryKept(entry: seq<ChunkState>)
      reads chunks, chunks[..]`terrainPopulated, chunks[..]`dontSave
    {
      |entry| == chunks.Length &&
      forall j :: 0 <= j < chunks.Length && chunks[j] != null ==>
        chunks[j].x == entry[j].x && chunks[j].z == entry[j].z &&
        chunks[j].terrainPopulated == entry[j].terrainPopulated && chunks[j].dontSave == entry[j].dontSave
    }

    /**
     * The occupant of slot `i` is seen as `SeesEntry` says: when no earlier
     * visit was to it, it is in no saved slot, since all of them come before
     * `i` and were visited, so it still has the flag and time of `entry`.
     */
    lemma EntryHere(entry: seq<ChunkState>, saved: set<int>, visits: seq<Visit>, i: int)
      requires EntryKept(entry) && KeptOutside(entry, saved) && Stamped(i, saved) && Linked(i, visits)
      requires 0 <= i < chunks.Length && chunks[i] != null
      ensures SeesEntry(chunks[i].State(), entry[i], Unvisited(visits, chunks[i]))
    {
    }

    /**
     * What the visits of a walk saw, slot by slot: each its chunk's own
     * coordinate, population flag and `dontSave`, and, at the chunk's first
     * slot, its whole state on entry.
     */
    lemma EntrySeen(entry: seq<ChunkState>, visits: seq<Visit>)
      requires Linked(|visits|, visits) && EntryKept(entry) && SawEntry(entry, visits)
      ensures forall j :: 0 <= j < |visits| && visits[j].Visited? ==>
        visits[j].state.x == visits[j].chunk.x && visits[j].state.z == visits[j].chunk.z &&
        visits[j].state.terrainPopulated == visits[j].chunk.terrainPopulated &&
        visits[j].state.dontSave == visits[j].chunk.dontSave
      ensures forall j :: 0 <= j < |visits| && visits[j].Visited? && (forall k :: 0 <= k < j ==> chunks[k] != chunks[j]) ==>
        visits[j].state == entry[j]
    {
    }

    /** The states of the occupants on entry are kept by all of them, and no visit has seen any yet. */
    lemma EntryStart(entry: seq<ChunkState>)
      requires |entry| == chunks.Length && forall j :: 0 <= j < chunks.Length && chunks[j] != null ==> entry[j] == chunks[j].State()
      ensures KeptOutside(entry, {}) && TimesKept(entry) && EntryKept(entry) && SawEntry(entry, [])
    {
    }

    /** Before the first slot nothing has been visited or saved. */
    lemma SaveStart(force: bool)
      requires chunks.Length == W * W
      ensures SaveProgress(force, 0, 0, false, {}, [])
    {
    }

    /** One more visit, made at the next slot to its occupant, keeps the link. */
    lemma LinkedAppend(i: int, visits: seq<Visit>, v: Visit)
      requires Linked(i, visits) && i < W * W
      requires chunks[i] == null ==> v.Vacant?
      requires chunks[i] != null ==> v.Visited? && v.chunk == chunks[i]
      ensures Linked(i + 1, visits + [v])
    {
      assert forall j :: 0 <= j < i ==> (visits + [v])[j] == visits[j];
    }

    /** A pass at an empty slot records a vacant visit and changes nothing. */
    lemma VacantStep(force: bool, start: seq<Event>, startStored: map<(int, int), bool>,
                     i: int, throttle: int, saved: set<int>, visits: seq<Visit>)
      requires i < W * W && SaveProgress(force, i, throttle, false, saved, visits) && chunks[i] == null
      requires trace == start + Events(visits) && stored == StoreVisits(startStored, visits)
      ensures SaveProgress(force, i + 1, throttle, false, saved, visits + [Vacant])
      ensures trace == start + Events(visits + [Vacant]) && stored == StoreVisits(startStored, visits + [Vacant])
    {
      EventsAppend(visits, Vacant);
      StoreVisitsAppend(startStored, visits, Vacant);
      assert Events(visits) + VisitEvents(Vacant) == Events(visits);
      RecordedAppend(force, chunkShouldSave, level.time, hasStorage, saved, visits, Vacant, false);
      LinkedAppend(i, visits, Vacant);
    }

    /** A pass at an occupied slot whose visit followed the save rule extends the walk's record, trace and storage. */
    lemma VisitedStep(force: bool, start: seq<Event>, startStored: map<(int, int), bool>,
                      i: int, throttle: int, saved: set<int>, visits: seq<Visit>, v: Visit, wasSaved: bool)
      requires i < W * W && Throttled(force, i, throttle, false, saved) && Linked(i, visits) && i !in saved
      requires Recorded(force, chunkShouldSave, level.time, hasStorage, saved, visits)
      requires chunks[i] != null && v.Visited? && v.chunk == chunks[i]
      requires wasSaved == chunkShouldSave(force, v.state, level.time)
      requires v.entities == (force && !v.state.dontSave && hasStorage) && v.stored == (wasSaved && hasStorage)
      requires Stamped(i + 1, if wasSaved then saved + {i} else saved)
      requires trace == start + Events(visits) + VisitEvents(v) && stored == StoreVisit(StoreVisits(startStored, visits), v)
      ensures SaveProgress(force, i + 1, if wasSaved then throttle + 1 else throttle, wasSaved && throttle + 1 == 2 && !force,
                           if wasSaved then saved + {i} else saved, visits + [v])
      ensures trace == start + Events(visits + [v]) && stored == StoreVisits(startStored, visits + [v])
    {
      AppendAssoc(start, Events(visits), VisitEvents(v));
      EventsAppend(visits, v);
      StoreVisitsAppend(startStored, visits, v);
      RecordedAppend(force, chunkShouldSave, level.time, hasStorage, saved, visits, v, wasSaved);
      LinkedAppend(i, visits, v);
    }

    /** One pass of the loop of `save(force, listener)`, at slot `i`. */
    method SaveStep(force: bool, ghost start: seq<Event>, ghost startStored: map<(int, int), bool>,
                    ghost entry: seq<ChunkState>, i: int, throttle: int, ghost saved: set<int>, ghost visits: seq<Visit>)
      returns (throttle': int, stopped': bool, ghost saved': set<int>, ghost visits': seq<Visit>)
      requires i < W * W && SaveProgress(force, i, throttle, false, saved, visits)
      requires trace == start + Events(visits) && stored == StoreVisits(startStored, visits)
      requires KeptOutside(entry, saved) && (!hasStorage ==> TimesKept(entry))
      requires EntryKept(entry)
      modifies this`trace, this`stored, chunks[..]`unsaved, chunks[..]`lastSaveTime
      ensures SaveProgress(force, i + 1, throttle', stopped', saved', visits')
      ensures trace == start + Events(visits') && stored == StoreVisits(startStored, visits')
      // only the chunk of slot i can change, and only when it is saved
      ensures saved' == saved || saved' == saved + {i}
      ensures KeptOutside(entry, saved') && (!hasStorage ==> TimesKept(entry))
      // the earlier visits stay; the new one saw its chunk as `SawEntry` demands
      ensures EntryKept(entry) && visits' == visits + [visits'[i]]
      ensures visits'[i].Visited? ==> SeesEntry(visits'[i].state, entry[i], Unvisited(visits, visits'[i].chunk))
    {
      var c := chunks[i];
      if c != null {
        throttle', stopped', saved', visits' := SaveOccupied(force, start, startStored, entry, i, c, throttle, saved, visits);
      } else {
        VacantStep(force, start, startStored, i, throttle, saved, visits);
        throttle', stopped', saved', visits' := throttle, false, saved, visits + [Vacant];
      }
    }

    /** The pass at slot `i` when it holds the chunk `c`. */
    method SaveOccupied(force: bool, ghost start: seq<Event>, ghost startStored: map<(int, int), bool>,
                        ghost entry: seq<ChunkState>, i: int, c: LevelChunk, throttle: int, ghost saved: set<int>, ghost visits: seq<Visit>)
      returns (throttle': int, stopped': bool, ghost saved': set<int>, ghost visits': seq<Visit>)
      requires i < W * W && SaveProgress(force, i, throttle, false, saved, visits) && chunks[i] == c
      requires trace == start + Events(visits) && stored == StoreVisits(startStored, visits)
      requires KeptOutside(entry, saved) && (!hasStorage ==> TimesKept(entry))
      requires EntryKept(entry)
      modifies this`trace, this`stored, chunks[..]`unsaved, chunks[..]`lastSaveTime
      ensures SaveProgress(force, i + 1, throttle', stopped', saved', visits')
      ensures trace == start + Events(visits') && stored == StoreVisits(startStored, visits')
      // only the chunk of slot i can change, and only when it is saved
      ensures saved' == saved || saved' == saved + {i}
      ensures KeptOutside(entry, saved') && (!hasStorage ==> TimesKept(entry))
      // the earlier visits stay; the new one saw its chunk as `SawEntry` demands
      ensures EntryKept(entry) && visits' == visits + [visits'[i]]
      ensures visits'[i].Visited? ==> SeesEntry(visits'[i].state, entry[i], Unvisited(visits, visits'[i].chunk))
    {
      throttle', stopped', saved', visits' := throttle, false, saved, visits;
      var wasSaved;
      ghost var v;
      assert i !in saved;
      EntryHere(entry, saved, visits, i);
      wasSaved, v := VisitSlot(i, c, force, saved, entry);
      // the visit changes no population flag and no `dontSave`
      forall j | 0 <= j < chunks.Length && chunks[j] != null
        ensures chunks[j].terrainPopulated == old(chunks[j].terrainPopulated)
        ensures chunks[j].dontSave == old(chunks[j].dontSave)
      {
      }
      VisitedStep(force, start, startStored, i, throttle, saved, visits, v, wasSaved);
      visits' := visits + [v];
      if wasSaved {
        saved' := saved + {i};
        throttle' := throttle + 1;
        // `return false` at the second save without `force`
        stopped' := throttle' == 2 && !force;
      }
    }

    /** Where the loop of `save(force, listener)` ends: at the last slot or at the second save without `force`. */
    lemma SaveOutcome(force: bool, reached: int, throttle: int, stopped: bool, saved: set<int>, visits: seq<Visit>)
      requires SaveProgress(force, reached, throttle, stopped, saved, visits)
      requires reached == W * W || stopped
      ensures force ==> !stopped
      ensures !force ==> |saved| <= 2 && (!stopped <==> |saved| < 2)
      ensures 0 <= reached <= W * W && (!stopped ==> reached == W * W) && (stopped ==> reached - 1 in saved)
      ensures |visits| == reached
      ensures forall j :: 0 <= j < reached ==>
        (visits[j].Vacant? <==> chunks[j] == null) && (visits[j].Visited? ==> visits[j].chunk == chunks[j])
      ensures forall j :: 0 <= j < reached && visits[j].Visited? ==>
        (j in saved <==> chunkShouldSave(force, visits[j].state, level.time)) &&
        visits[j].entities == (force && !visits[j].state.dontSave && hasStorage) &&
        visits[j].stored == (j in saved && hasStorage)
      ensures forall j :: j in saved ==>
        0 <= j < reached && chunks[j] != null &&
        !chunks[j].unsaved && (hasStorage ==> chunks[j].lastSaveTime == level.time)
    {
    }

    /**
     * The loop of `save(force, listener)`: visit the slots in order until the
     * last one or the stop; `entry` is the state of each slot's occupant on entry.
     */
    method SaveSlots(force: bool, ghost entry: seq<ChunkState>)
      returns (throttle: int, stopped: bool, ghost saved: set<int>, reached: int, ghost visits: seq<Visit>)
      requires chunks.Length == W * W
      requires |entry| == W * W && forall j :: 0 <= j < W * W && chunks[j] != null ==> entry[j] == chunks[j].State()
      modifies this`trace, this`stored, chunks[..]`unsaved, chunks[..]`lastSaveTime
      ensures SaveProgress(force, reached, throttle, stopped, saved, visits) && (reached == W * W || stopped)
      ensures trace == old(trace) + Events(visits) && stored == StoreVisits(old(stored), visits)
      // only the chunks saved lose their flag and time; the visits saw the states of `entry` as `SawEntry` says
      ensures forall j :: 0 <= j < W * W && chunks[j] != null && (forall k :: k in saved ==> chunks[k] != chunks[j]) ==>
        chunks[j].unsaved == old(chunks[j].unsaved) && chunks[j].lastSaveTime == old(chunks[j].lastSaveTime)
      ensures !hasStorage ==> forall j :: 0 <= j < W * W && chunks[j] != null ==>
        chunks[j].lastSaveTime == old(chunks[j].lastSaveTime)
      ensures SawEntry(entry, visits) && EntryKept(entry)
    {
      throttle, stopped := 0, false;
      saved, visits := {}, [];
      var i := 0;
      SaveStart(force);
      EntryStart(entry);
      while i < chunks.Length && !stopped
        invariant SaveProgress(force, i, throttle, stopped, saved, visits)
        invariant trace == old(trace) + Events(visits) && stored == StoreVisits(old(stored), visits)
        invariant KeptOutside(entry, saved) && (!hasStorage ==> TimesKept(entry))
        invariant EntryKept(entry) && SawEntry(entry, visits)
      {
        ghost var visited := visits;
        throttle, stopped, saved, visits := SaveStep(force, old(trace), old(stored), entry, i, throttle, saved, visits);
        SawEntryAppend(entry, visited, visits[i]);
        i := i + 1;
      }
      reached := i;
    }

    /**
     * `save(force, listener)`: walks the slots in order; with `force` it saves
     * the entities of every chunk that may be saved; it saves every chunk that
     * wants saving when its slot is reached and clears its `unsaved`, and
     * without `force` stops with false at the second save; with `force` it
     * flushes the storage at the end. `saved` is the set of slots whose chunks
     * were saved, `reached` the number of slots visited and `visits` what was
     * seen and asked at each.
     */
    method Save(force: bool) returns (done: bool, ghost saved: set<int>, ghost reached: int, ghost visits: seq<Visit>)
      requires chunks.Length == W * W
      modifies this`trace, this`stored, chunks[..]`unsaved, chunks[..]`lastSaveTime
      ensures force ==> done
      ensures !force ==> |saved| <= 2 && (done <==> |saved| < 2)
      ensures 0 <= reached <= W * W && (done ==> reached == W * W) && (!done ==> reached - 1 in saved)
      // each occupied slot reached was visited; its chunk was saved exactly when it wanted saving then
      ensures |visits| == reached
      ensures forall j :: 0 <= j < reached ==>
        (visits[j].Vacant? <==> chunks[j] == null) && (visits[j].Visited? ==> visits[j].chunk == chunks[j])
      ensures forall j :: 0 <= j < reached && visits[j].Visited? ==>
        (j in saved <==> chunkShouldSave(force, visits[j].state, level.time)) &&
        visits[j].entities == (force && !visits[j].state.dontSave && hasStorage) &&
        visits[j].stored == (j in saved && hasStorage)
      // every chunk saved has its flag cleared and its time stamped
      ensures forall j :: j in saved ==>
        0 <= j < reached && chunks[j] != null &&
        !chunks[j].unsaved && (hasStorage ==> chunks[j].lastSaveTime == level.time)
      // a chunk in no saved slot keeps its flag and its time
      ensures forall j :: 0 <= j < W * W && chunks[j] != null && (forall k :: k in saved ==> chunks[k] != chunks[j]) ==>
        chunks[j].unsaved == old(chunks[j].unsaved) && chunks[j].lastSaveTime == old(chunks[j].lastSaveTime)
      // without a storage no save time changes
      ensures !hasStorage ==> forall j :: 0 <= j < W * W && chunks[j] != null ==>
        chunks[j].lastSaveTime == old(chunks[j].lastSaveTime)
      // each visit saw its chunk's own coordinate, population and `dontSave`, which no visit changes
      ensures forall j :: 0 <= j < |visits| && visits[j].Visited? ==>
        visits[j].state.x == visits[j].chunk.x && visits[j].state.z == visits[j].chunk.z &&
        visits[j].state.terrainPopulated == visits[j].chunk.terrainPopulated &&
        visits[j].state.dontSave == visits[j].chunk.dontSave
      // at a chunk's first slot the visit saw its state on entry
      ensures forall j :: 0 <= j < |visits| && visits[j].Visited? && (forall k :: 0 <= k < j ==> chunks[k] != chunks[j]) ==>
        visits[j].state == old(chunks[j].State())
      // what the storage was asked to do, slot by slot, then the flush, and what it can load afterwards
      ensures trace == old(trace) + Events(visits) + if force && hasStorage then [Flushed] else []
      ensures stored == StoreVisits(old(stored), visits)
    {
      var throttle, stopped;
      ghost var entry := States(chunks.Length);
      throttle, stopped, saved, reached, visits := SaveSlots(force, entry);
      done := !stopped;
      if !stopped && force {
        Flush();
      }
      SaveOutcome(force, reached, throttle, stopped, saved, visits);
      EntrySeen(entry, visits);
    }

    /** `tick`: there is never anything to unload. */
    method Tick() returns (r: bool)
      ensures !r
    {
      return false;
    }

    /** `shouldSave()` of the cache as a chunk source: it always wants saving. */
    method ShouldSave() returns (r: bool)
      ensures r
    {
      return true;
    }
  }
}
