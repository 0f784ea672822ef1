/**
 * The caches of the older graphics API (src/graphics/pipeline_manager.rs,
 * src/graphics/bind_group_manager.rs, src/graphics/buffer_manager.rs).
 * Keys are hashes of the descriptors and are taken here as given naturals;
 * a value the device would create is passed in as `created` and is used
 * only when the cache misses.
 */
module GraphicsCaches {
  import opened Wrappers
  import opened Handles
  import opened Caches

  const PIPELINE_MANAGER_CAPACITY: nat := 500
  const PIPELINE_LIFETIME_FRAMES_EMERGENCY: nat := 10

  /** The panics of the managers, as error values. */
  datatype CacheError =
    | CapacityExceeded
    | MissingEntry
    | BufferNotFound

  /**
   * `insert_graphics_pipeline` on the map `m`: a hit resets the entry's age
   * and returns it; a miss on a full map first drops the entries 10 frames
   * old or more, fails if the map is still full, and otherwise stores the
   * new pipeline. The map is returned in both cases, since the emergency
   * eviction has already happened when the capacity check fails.
   */
  function InsertPipeline(m: Aging<Handle>, key: Key, created: Handle): (Result<Handle, CacheError>, Aging<Handle>)
  {
    if key in m then (Ok(m[key].0), Touched(m, key))
    else
      var room := if |m| >= PIPELINE_MANAGER_CAPACITY then Retained(m, PIPELINE_LIFETIME_FRAMES_EMERGENCY) else m;
      if |room| >= PIPELINE_MANAGER_CAPACITY then (Err(CapacityExceeded), room)
      else (Ok(created), Stored(room, key, created))
  }

  /**
   * After a successful insert the pipeline is in the map with age 0 and the
   * map holds at most 500 pipelines; a hit keeps every entry and returns
   * the cached pipeline, a miss returns the new one.
   */
  lemma InsertPipelineBounded(m: Aging<Handle>, key: Key, created: Handle)
    requires |m| <= PIPELINE_MANAGER_CAPACITY
    ensures var (r, m') := InsertPipeline(m, key, created);
      (r.Ok? ==> key in m' && m'[key] == (r.value, 0) && |m'| <= PIPELINE_MANAGER_CAPACITY) &&
      (key in m ==> r == Ok(m[key].0) && m'.Keys == m.Keys) &&
      (key !in m && r.Ok? ==> r.value == created) &&
      (r.Err? ==> key !in m && |m| == PIPELINE_MANAGER_CAPACITY)
  {
    if key !in m {
      var room := if |m| >= PIPELINE_MANAGER_CAPACITY then Retained(m, PIPELINE_LIFETIME_FRAMES_EMERGENCY) else m;
      if |room| < PIPELINE_MANAGER_CAPACITY {
        assert key !in room;
        assert |Stored(room, key, created)| == |room| + 1;
      }
    }
  }

  /** A full map with an entry at least 10 frames old still takes a new pipeline. */
  lemma InsertPipelineEvicts(m: Aging<Handle>, key: Key, created: Handle, old_: Key)
    requires |m| == PIPELINE_MANAGER_CAPACITY && key !in m
    requires old_ in m && m[old_].1 >= PIPELINE_LIFETIME_FRAMES_EMERGENCY
    ensures InsertPipeline(m, key, created).0 == Ok(created)
    ensures old_ !in InsertPipeline(m, key, created).1
  {
    var room := Retained(m, PIPELINE_LIFETIME_FRAMES_EMERGENCY);
    assert room.Keys <= m.Keys - {old_};
    SubsetSmaller(room.Keys, m.Keys - {old_});
  }

  lemma {:induction false} SubsetSmaller<K>(a: set<K>, b: set<K>)
    requires a <= b
    ensures |a| <= |b|
    decreases |b|
  {
    if b != {} {
      var x :| x in b;
      SubsetSmaller(a - {x}, b - {x});
    }
  }

  /**
   * `insert_compute_pipeline` as the source writes it: the presence and
   * capacity checks look at the graphics map, the insert and the final
   * lookup at the compute map. Returns the result and both maps.
   */
  function InsertComputePipelineAsWritten(graphics: Aging<Handle>, compute: Aging<Handle>, key: Key, created: Handle)
    : (Result<Handle, CacheError>, Aging<Handle>, Aging<Handle>)
  {
    if key !in graphics then
      var room := if |graphics| >= PIPELINE_MANAGER_CAPACITY then Retained(graphics, PIPELINE_LIFETIME_FRAMES_EMERGENCY) else graphics;
      if |room| >= PIPELINE_MANAGER_CAPACITY then (Err(CapacityExceeded), room, compute)
      else (Ok(created), room, Stored(compute, key, created))
    else if key in compute then (Ok(compute[key].0), graphics, Touched(compute, key))
    else (Err(MissingEntry), graphics, compute)
  }

  /**
   * As written, a compute pipeline already cached is created again and
   * replaces the cached one, and the compute map grows past the capacity;
   * the corrected insert returns the cached pipeline.
   */
  lemma ComputeCacheNeverHits(graphics: Aging<Handle>, compute: Aging<Handle>, key: Key, created: Handle)
    requires key !in graphics && |graphics| < PIPELINE_MANAGER_CAPACITY
    requires key in compute && compute[key].0 != created
    ensures InsertComputePipelineAsWritten(graphics, compute, key, created).0 == Ok(created)
    ensures InsertPipeline(compute, key, created).0 == Ok(compute[key].0)
    ensures InsertPipeline(compute, key, created).0 != InsertComputePipelineAsWritten(graphics, compute, key, created).0
  {
  }

  /** As written, a full compute map still grows when the graphics map has room. */
  lemma ComputeCacheUnbounded(graphics: Aging<Handle>, compute: Aging<Handle>, key: Key, created: Handle)
    requires key !in graphics && |graphics| < PIPELINE_MANAGER_CAPACITY
    requires key !in compute && |compute| == PIPELINE_MANAGER_CAPACITY
    ensures |InsertComputePipelineAsWritten(graphics, compute, key, created).2| == PIPELINE_MANAGER_CAPACITY + 1
    ensures InsertPipeline(compute, key, created).0.Ok? ==> |InsertPipeline(compute, key, created).1| <= PIPELINE_MANAGER_CAPACITY
  {
    InsertPipelineBounded(compute, key, created);
  }

  /** The pipeline cache of the graphics API, with a capacity of 500 per map. */
  class PipelineManager {
    var graphicsPipelines: Aging<Handle>
    var computePipelines: Aging<Handle>

    constructor()
      ensures graphicsPipelines == map[] && computePipelines == map[]
    {
      graphicsPipelines := map[];
      computePipelines := map[];
    }

    /** `insert_graphics_pipeline`; `key` is the descriptor's hash. */
    method InsertGraphicsPipeline(key: Key, created: Handle) returns (r: Result<Handle, CacheError>)
      modifies this
      ensures (r, graphicsPipelines) == InsertPipeline(old(graphicsPipelines), key, created)
      ensures computePipelines == old(computePipelines)
    {
      if key !in graphicsPipelines {
        if |graphicsPipelines| >= PIPELINE_MANAGER_CAPACITY {
          graphicsPipelines := Retained(graphicsPipelines, PIPELINE_LIFETIME_FRAMES_EMERGENCY);
          if |graphicsPipelines| >= PIPELINE_MANAGER_CAPACITY {
            return Err(CapacityExceeded);
          }
        }
        graphicsPipelines := graphicsPipelines[key := (created, 0)];
      }
      var value := graphicsPipelines[key];
      if value.1 == 0 {
        assert graphicsPipelines[key := (value.0, 0)] == graphicsPipelines;
      }
      graphicsPipelines := graphicsPipelines[key := (value.0, 0)];
      r := Ok(value.0);
    }

    /**
     * `insert_compute_pipeline`, corrected to check and evict in the
     * compute map it inserts into.
     */
    method InsertComputePipeline(key: Key, created: Handle) returns (r: Result<Handle, CacheError>)
      modifies this
      ensures (r, computePipelines) == InsertPipeline(old(computePipelines), key, created)
      ensures graphicsPipelines == old(graphicsPipelines)
    {
      if key !in computePipelines {
        if |computePipelines| >= PIPELINE_MANAGER_CAPACITY {
          computePipelines := Retained(computePipelines, PIPELINE_LIFETIME_FRAMES_EMERGENCY);
          if |computePipelines| >= PIPELINE_MANAGER_CAPACITY {
            return Err(CapacityExceeded);
          }
        }
        computePipelines := computePipelines[key := (created, 0)];
      }
      var value := computePipelines[key];
      if value.1 == 0 {
        assert computePipelines[key := (value.0, 0)] == computePipelines;
      }
      computePipelines := computePipelines[key := (value.0, 0)];
      r := Ok(value.0);
    }

    /** Once per frame: evicts the pipelines 50 frames old and ages the others, in both maps. */
    method Cycle()
      modifies this
      ensures graphicsPipelines == Aged(old(graphicsPipelines), PIPELINE_LIFETIME_FRAMES)
      ensures computePipelines == Aged(old(computePipelines), PIPELINE_LIFETIME_FRAMES)
    {
      graphicsPipelines := Retained(graphicsPipelines, PIPELINE_LIFETIME_FRAMES);
      graphicsPipelines := IncrementAll(graphicsPipelines);
      computePipelines := Retained(computePipelines, PIPELINE_LIFETIME_FRAMES);
      computePipelines := IncrementAll(computePipelines);
    }
  }

  /** `insert` of the bind-group cache: create on a miss, then reset the age and return the cached group. */
  function InsertBindGroup(m: Aging<Handle>, key: Key, created: Handle): (r: (Handle, Aging<Handle>))
    ensures key in m ==> r.0 == m[key].0
    ensures key !in m ==> r.0 == created
    ensures r.1 == Stored(m, key, r.0)
  {
    if key in m then (m[key].0, Touched(m, key)) else (created, Stored(m, key, created))
  }

  /** Inserting the same key twice returns the same bind group, whatever the second call would have created. */
  lemma InsertBindGroupTwice(m: Aging<Handle>, key: Key, first: Handle, second: Handle)
    ensures var (g, m1) := InsertBindGroup(m, key, first);
      InsertBindGroup(m1, key, second) == (g, m1)
  {
    var m1 := InsertBindGroup(m, key, first).1;
    assert m1[key := (m1[key].0, 0)] == m1;
  }

  /** The bind-group cache of the graphics API: one bind group per key, kept for 100 frames. */
  class BindGroupManager {
    var bindGroups: Aging<Handle>

    constructor()
      ensures bindGroups == map[]
    {
      bindGroups := map[];
    }

    method Insert(key: Key, created: Handle) returns (r: Handle)
      modifies this
      ensures (r, bindGroups) == InsertBindGroup(old(bindGroups), key, created)
    {
      if key !in bindGroups {
        bindGroups := bindGroups[key := (created, 0)];
      }
      var value := bindGroups[key];
      if value.1 == 0 {
        assert bindGroups[key := (value.0, 0)] == bindGroups;
      }
      bindGroups := bindGroups[key := (value.0, 0)];
      r := value.0;
    }

    /** Once per frame: evicts the bind groups 100 frames old and ages the others. */
    method Cycle()
      modifies this
      ensures bindGroups == Aged(old(bindGroups), BIND_GROUP_LIFETIME)
    {
      bindGroups := Retained(bindGroups, BIND_GROUP_LIFETIME);
      bindGroups := IncrementAll(bindGroups);
    }
  }

  // ---------------------------------------------------------------------
  // Reference-counted buffers
  // ---------------------------------------------------------------------

  const TEMPORARY_BUFFER_LIFETIME: nat := 60
  const USIZE_MAX: nat := 0xFFFF_FFFF_FFFF_FFFF

  /** A cached buffer: the buffer, how many holders it has, its age, and whether `cycle` ages it. */
  datatype BufferEntry = BufferEntry(buffer: Handle, reference: nat, lifetime: nat, isTemporary: bool)

  /** The buffer cache is well formed: buffers of distinct keys differ, and only temporary buffers age. */
  predicate BuffersValid(m: map<Key, BufferEntry>)
  {
    (forall k, j :: k in m && j in m && k != j ==> m[k].buffer != m[j].buffer) &&
    (forall k :: k in m && !m[k].isTemporary ==> m[k].lifetime == 0)
  }

  /**
   * `insert` and `make`: on a miss, store the buffer the device created with
   * no holder and age 0; then count one more holder and return the cached
   * buffer. A hit does not reset the age.
   */
  function Acquired(m: map<Key, BufferEntry>, key: Key, created: Handle, temporary: bool): (r: (Handle, map<Key, BufferEntry>))
    ensures key in m ==> r.0 == m[key].buffer && r.1 == m[key := m[key].(reference := m[key].reference + 1)]
    ensures key !in m ==> r.0 == created && r.1 == m[key := BufferEntry(created, 1, 0, temporary)]
  {
    var m1 := if key in m then m else m[key := BufferEntry(created, 0, 0, temporary)];
    (m1[key].buffer, m1[key := m1[key].(reference := m1[key].reference + 1)])
  }

  /** `reference -= 1` on a `usize`, which wraps around at zero in a release build. */
  function Released(reference: nat): (r: nat)
    ensures reference > 0 ==> r + 1 == reference
    ensures reference == 0 ==> r == USIZE_MAX
  {
    if reference == 0 then USIZE_MAX else reference - 1
  }

  /** The key holding `b`, unique in a well-formed cache. */
  ghost function KeyOf(m: map<Key, BufferEntry>, b: Handle): (k: Key)
    requires BuffersValid(m)
    requires exists k :: k in m && m[k].buffer == b
    ensures k in m && m[k].buffer == b
  {
    var k :| k in m && m[k].buffer == b; k
  }

  /**
   * `drop_buffer` as the source writes it: unknown buffers are an error;
   * otherwise the holder count goes down, and the entry is removed when its
   * age is 0, whatever the count.
   */
  ghost function DropBufferAsWritten(m: map<Key, BufferEntry>, b: Handle): Result<map<Key, BufferEntry>, CacheError>
    requires BuffersValid(m)
  {
    if !(exists k :: k in m && m[k].buffer == b) then Err(BufferNotFound)
    else
      var k := KeyOf(m, b);
      if m[k].lifetime == 0 then Ok(m - {k})
      else Ok(m[k := m[k].(reference := Released(m[k].reference))])
  }

  /**
   * `drop_buffer` corrected: the entry is removed when its last holder
   * drops it; a buffer still held stays cached with one holder fewer.
   */
  ghost function DropBufferSpec(m: map<Key, BufferEntry>, b: Handle): (r: Result<map<Key, BufferEntry>, CacheError>)
    requires BuffersValid(m)
    ensures r.Err? <==> !(exists k :: k in m && m[k].buffer == b)
    ensures r.Ok? ==> r.value.Keys <= m.Keys && BuffersValid(r.value)
  {
    if !(exists k :: k in m && m[k].buffer == b) then Err(BufferNotFound)
    else
      var k := KeyOf(m, b);
      if m[k].reference <= 1 then Ok(m - {k})
      else Ok(m[k := m[k].(reference := m[k].reference - 1)])
  }

  /**
   * With two holders of a non-temporary buffer, one `drop_buffer` removes
   * the entry as written, so the next `insert` of the same data creates a
   * second buffer; the corrected drop keeps it for the remaining holder.
   */
  lemma DropWhileStillHeld(m: map<Key, BufferEntry>, key: Key, b: Handle)
    requires BuffersValid(m)
    requires key in m && m[key] == BufferEntry(b, 2, 0, false)
    ensures DropBufferAsWritten(m, b) == Ok(m - {key})
    ensures DropBufferSpec(m, b) == Ok(m[key := BufferEntry(b, 1, 0, false)])
  {
    assert KeyOf(m, b) == key;
  }

  /** A buffer acquired `n` times and dropped once is still cached with `n - 1` holders. */
  lemma AcquireThenDrop(m: map<Key, BufferEntry>, key: Key, created: Handle, temporary: bool)
    requires BuffersValid(m) && key in m
    ensures var (b, m1) := Acquired(m, key, created, temporary);
      BuffersValid(m1) && DropBufferSpec(m1, b) == Ok(if m[key].reference == 0 then m - {key} else m)
  {
    var (b, m1) := Acquired(m, key, created, temporary);
    assert key in m1 && m1[key].buffer == b;
    assert KeyOf(m1, b) == key;
    assert BuffersValid(m1);
    if m[key].reference > 0 {
      assert m1[key := m1[key].(reference := m1[key].reference - 1)] == m;
    } else {
      assert m1 - {key} == m - {key};
    }
  }

  /** An entry one `cycle` older: only temporary buffers age. */
  function Bumped(e: BufferEntry): (r: BufferEntry)
    ensures r.buffer == e.buffer && r.reference == e.reference && r.isTemporary == e.isTemporary
    ensures r.lifetime == if e.isTemporary then e.lifetime + 1 else e.lifetime
  {
    if e.isTemporary then e.(lifetime := e.lifetime + 1) else e
  }

  /** `cycle` of the buffer cache: age the temporary buffers, then remove every entry 60 frames old. */
  function CycledBuffers(m: map<Key, BufferEntry>): map<Key, BufferEntry>
  {
    map k | k in m && Bumped(m[k]).lifetime < TEMPORARY_BUFFER_LIFETIME :: Bumped(m[k])
  }

  /** `cycle` keeps the cache well formed and never evicts a non-temporary buffer. */
  lemma CycleKeepsPermanent(m: map<Key, BufferEntry>)
    requires BuffersValid(m)
    ensures BuffersValid(CycledBuffers(m))
    ensures forall k :: k in m && !m[k].isTemporary ==> k in CycledBuffers(m) && CycledBuffers(m)[k] == m[k]
    ensures forall k :: k in CycledBuffers(m) ==> k in m
  {
  }

  /** A temporary buffer is evicted by `cycle` exactly when it reaches 60 frames. */
  lemma CycleEvictsTemporary(m: map<Key, BufferEntry>, k: Key)
    requires k in m && m[k].isTemporary
    ensures k in CycledBuffers(m) <==> m[k].lifetime + 1 < TEMPORARY_BUFFER_LIFETIME
  {
  }

  /** The reference-counting buffer cache of the graphics API. */
  class BufferManager {
    var buffers: map<Key, BufferEntry>

    ghost predicate Valid()
      reads this
    {
      BuffersValid(buffers)
    }

    constructor()
      ensures Valid() && buffers == map[]
    {
      buffers := map[];
    }

    /**
     * `insert` (keyed by the data and usage) and `make` (keyed by the size
     * and usage) share this body; `created` is the buffer the device
     * returns on a miss, a buffer the cache does not hold yet.
     */
    method Acquire(key: Key, created: Handle, temporary: bool) returns (r: Handle)
      requires Valid()
      requires key !in buffers ==> forall k :: k in buffers ==> buffers[k].buffer != created
      modifies this
      ensures Valid()
      ensures (r, buffers) == Acquired(old(buffers), key, created, temporary)
    {
      if key !in buffers {
        buffers := buffers[key := BufferEntry(created, 0, 0, temporary)];
      }
      var entry := buffers[key];
      buffers := buffers[key := entry.(reference := entry.reference + 1)];
      r := entry.buffer;
    }

    /** `drop_buffer`, with the removal condition corrected to the last holder. */
    method DropBuffer(b: Handle) returns (r: Result<(), CacheError>)
      requires Valid()
      modifies this
      ensures Valid()
      ensures DropBufferSpec(old(buffers), b).Ok? <==> r.Ok?
      ensures r.Ok? ==> buffers == DropBufferSpec(old(buffers), b).value
      ensures r.Err? ==> buffers == old(buffers)
    {
      var found := FindBuffer(buffers, b);
      if found.None? {
        return Err(BufferNotFound);
      }
      var k := found.value;
      assert KeyOf(buffers, b) == k;
      var entry := buffers[k];
      if entry.reference <= 1 {
        buffers := buffers - {k};
      } else {
        buffers := buffers[k := entry.(reference := entry.reference - 1)];
      }
      r := Ok(());
    }

    /** Once per frame: ages the temporary buffers and drops the ones 60 frames old. */
    method Cycle()
      requires Valid()
      modifies this
      ensures Valid()
      ensures buffers == CycledBuffers(old(buffers))
    {
      var bumped, expired := AgeTemporary(buffers);
      var kept := RemoveKeys(bumped, expired);
      assert kept == CycledBuffers(buffers);
      CycleKeepsPermanent(buffers);
      buffers := kept;
    }
  }

  /** The search of `drop_buffer`: a key whose entry holds `b`, if any. */
  method FindBuffer(m: map<Key, BufferEntry>, b: Handle) returns (found: Option<Key>)
    ensures found.Some? ==> found.value in m && m[found.value].buffer == b
    ensures found.None? ==> forall k :: k in m ==> m[k].buffer != b
  {
    found := None;
    var pending := m.Keys;
    while pending != {} && found.None?
      invariant pending <= m.Keys
      invariant found.None? ==> forall k :: k in m && k !in pending ==> m[k].buffer != b
      invariant found.Some? ==> found.value in m && m[found.value].buffer == b
      decreases |pending|
    {
      var k :| k in pending;
      if m[k].buffer == b {
        found := Some(k);
      }
      pending := pending - {k};
    }
  }

  /**
   * The first loop of `cycle`: ages each temporary buffer in place and
   * collects the keys of the entries that reached 60 frames.
   */
  method AgeTemporary(m: map<Key, BufferEntry>) returns (r: map<Key, BufferEntry>, expired: seq<Key>)
    ensures r.Keys == m.Keys
    ensures forall k :: k in m ==> r[k] == Bumped(m[k])
    ensures forall k :: k in expired <==> k in m && Bumped(m[k]).lifetime >= TEMPORARY_BUFFER_LIFETIME
  {
    r := m;
    expired := [];
    var pending := m.Keys;
    while pending != {}
      invariant pending <= m.Keys && r.Keys == m.Keys
      invariant forall k :: k in pending ==> r[k] == m[k]
      invariant forall k :: k in m && k !in pending ==> r[k] == Bumped(m[k])
      invariant forall k :: k in expired <==> k in m && k !in pending && Bumped(m[k]).lifetime >= TEMPORARY_BUFFER_LIFETIME
      decreases |pending|
    {
      var k :| k in pending;
      var entry := r[k];
      if entry.isTemporary {
        entry := entry.(lifetime := entry.lifetime + 1);
        r := r[k := entry];
      }
      if entry.lifetime >= TEMPORARY_BUFFER_LIFETIME {
        expired := expired + [k];
      }
      pending := pending - {k};
    }
  }

  /** The second loop of `cycle`: removes every collected key. */
  method RemoveKeys(m: map<Key, BufferEntry>, keys: seq<Key>) returns (r: map<Key, BufferEntry>)
    ensures forall k :: k in r <==> k in m && k !in keys
    ensures forall k :: k in r ==> r[k] == m[k]
  {
    r := m;
    var i := 0;
    while i < |keys|
      invariant 0 <= i <= |keys|
      invariant forall k :: k in r <==> k in m && k !in keys[..i]
      invariant forall k :: k in r ==> r[k] == m[k]
    {
      assert keys[..i + 1] == keys[..i] + [keys[i]];
      r := r - {keys[i]};
      i := i + 1;
    }
    assert keys[..i] == keys;
  }
}
