/**
 * Frame-lifetime caches of the gpu API (src/gpu/pipeline/pipeline_manager.rs
 * and src/gpu/shader/bind_group_manager.rs). Every cache is a map from a key
 * to a value and its age in frames: fetching an entry resets its age,
 * creating one stores it with age 0, and `cycle`, once per frame, drops the
 * entries that reached the lifetime limit and then ages the rest by one.
 *
 * The functions `Touched`, `Stored` and `Aged` say what these operations do
 * to a map; the classes are the managers themselves, whose methods are
 * proved to change their maps exactly so.
 */
module Caches {
  import opened Wrappers
  import opened ShaderTypes
  import opened Handles

  /** An entry of a cache: the cached value and its age in frames. */
  type Aging<V> = map<Key, (V, nat)>

  const PIPELINE_LIFETIME_FRAMES: nat := 50
  const BIND_GROUP_LIFETIME: nat := 100

  /** The map after a successful fetch of `k`: its age is reset, nothing else changes. */
  function Touched<V>(m: Aging<V>, k: Key): (r: Aging<V>)
    ensures r.Keys == m.Keys
    ensures k in m ==> r[k] == (m[k].0, 0)
    ensures forall j :: j in m && j != k ==> r[j] == m[j]
  {
    if k in m then m[k := (m[k].0, 0)] else m
  }

  /** The map after storing `v` under `k`, which replaces any earlier entry. */
  function Stored<V>(m: Aging<V>, k: Key, v: V): (r: Aging<V>)
    ensures r.Keys == m.Keys + {k}
    ensures r[k] == (v, 0)
    ensures forall j :: j in m && j != k ==> r[j] == m[j]
  {
    m[k := (v, 0)]
  }

  /** `retain`: the entries younger than `limit`. */
  function Retained<V>(m: Aging<V>, limit: nat): (r: Aging<V>)
    ensures forall k :: k in r <==> k in m && m[k].1 < limit
    ensures forall k :: k in r ==> r[k] == m[k]
  {
    map k | k in m && m[k].1 < limit :: m[k]
  }

  /** Every entry one frame older. */
  function Incremented<V>(m: Aging<V>): (r: Aging<V>)
    ensures r.Keys == m.Keys
    ensures forall k :: k in m ==> r[k] == (m[k].0, m[k].1 + 1)
  {
    map k | k in m :: (m[k].0, m[k].1 + 1)
  }

  /** One `cycle`: drop the entries of age `limit` or more, then age the survivors. */
  function Aged<V>(m: Aging<V>, limit: nat): Aging<V>
  {
    Incremented(Retained(m, limit))
  }

  /** `n` cycles in a row. */
  function AgedTimes<V>(m: Aging<V>, limit: nat, n: nat): Aging<V>
  {
    if n == 0 then m else AgedTimes(Aged(m, limit), limit, n - 1)
  }

  /**
   * The loop that ages every entry in place: it visits the keys in an
   * unspecified order, as a hash map's iterator does.
   */
  method IncrementAll<V>(m: Aging<V>) returns (r: Aging<V>)
    ensures r == Incremented(m)
  {
    r := m;
    var pending := m.Keys;
    while pending != {}
      invariant pending <= m.Keys
      invariant r.Keys == m.Keys
      invariant forall k :: k in m && k in pending ==> r[k] == m[k]
      invariant forall k :: k in m && k !in pending ==> r[k] == (m[k].0, m[k].1 + 1)
      decreases |pending|
    {
      var k :| k in pending;
      r := r[k := (r[k].0, r[k].1 + 1)];
      pending := pending - {k};
    }
  }

  /** After a cycle every entry is between 1 and `limit` frames old, and exactly the young entries survive. */
  lemma AgedBounds<V>(m: Aging<V>, limit: nat)
    ensures forall k :: k in Aged(m, limit) <==> k in m && m[k].1 < limit
    ensures forall k :: k in Aged(m, limit) ==>
      Aged(m, limit)[k] == (m[k].0, m[k].1 + 1) && 1 <= Aged(m, limit)[k].1 <= limit
  {
  }

  /**
   * An entry of age `t` that nobody fetches is still there, with the same
   * value and age `t + n`, after `n` cycles as long as `t + n <= limit`.
   */
  lemma {:induction false} AgedTimesKeeps<V>(m: Aging<V>, limit: nat, n: nat, k: Key)
    requires k in m && m[k].1 + n <= limit
    ensures k in AgedTimes(m, limit, n) && AgedTimes(m, limit, n)[k] == (m[k].0, m[k].1 + n)
    decreases n
  {
    if n > 0 {
      AgedBounds(m, limit);
      AgedTimesKeeps(Aged(m, limit), limit, n - 1, k);
    }
  }

  /** A key that is gone stays gone: cycles never bring an entry back. */
  lemma {:induction false} AgedTimesNoReturn<V>(m: Aging<V>, limit: nat, n: nat, k: Key)
    requires k !in m
    ensures k !in AgedTimes(m, limit, n)
    decreases n
  {
    if n > 0 {
      AgedTimesNoReturn(Aged(m, limit), limit, n - 1, k);
    }
  }

  /**
   * An entry stored now and never fetched again survives `limit` cycles
   * and is evicted by cycle number `limit + 1`.
   */
  lemma EvictedAfterLifetime<V>(m: Aging<V>, k: Key, v: V, limit: nat)
    ensures k in AgedTimes(Stored(m, k, v), limit, limit)
    ensures AgedTimes(Stored(m, k, v), limit, limit)[k] == (v, limit)
    ensures k !in AgedTimes(Stored(m, k, v), limit, limit + 1)
  {
    var s := Stored(m, k, v);
    AgedTimesKeeps(s, limit, limit, k);
    AgedTimesSplit(s, limit, limit);
    var last := AgedTimes(s, limit, limit);
    assert k !in Aged(last, limit);
    AgedTimesNoReturn(Aged(last, limit), limit, 0, k);
  }

  /** `n + 1` cycles are `n` cycles and then one more. */
  lemma {:induction false} AgedTimesSplit<V>(m: Aging<V>, limit: nat, n: nat)
    ensures AgedTimes(m, limit, n + 1) == Aged(AgedTimes(m, limit, n), limit)
    decreases n
  {
    if n > 0 {
      AgedTimesSplit(Aged(m, limit), limit, n - 1);
    }
  }

  /**
   * The pipeline cache of the gpu API: graphics and compute pipelines in
   * two independent maps, each with the same 50-frame lifetime.
   */
  class PipelineManager {
    var graphicsPipelines: Aging<Handle>
    var computePipelines: Aging<Handle>

    constructor()
      ensures graphicsPipelines == map[] && computePipelines == map[]
    {
      graphicsPipelines := map[];
      computePipelines := map[];
    }

    /** The cached graphics pipeline of `key`, whose age is reset; None on a miss. */
    method GetGraphicsPipeline(key: Key) returns (r: Option<Handle>)
      modifies this
      ensures key in old(graphicsPipelines) <==> r.Some?
      ensures r.Some? ==> r.value == old(graphicsPipelines)[key].0
      ensures graphicsPipelines == Touched(old(graphicsPipelines), key)
      ensures computePipelines == old(computePipelines)
    {
      if key in graphicsPipelines {
        var entry := graphicsPipelines[key];
        graphicsPipelines := graphicsPipelines[key := (entry.0, 0)];
        r := Some(entry.0);
      } else {
        r := None;
      }
    }

    /** Stores the pipeline the device created for `key`, replacing any earlier one, and returns it. */
    method CreateGraphicsPipeline(key: Key, created: Handle) returns (r: Handle)
      modifies this
      ensures r == created
      ensures graphicsPipelines == Stored(old(graphicsPipelines), key, created)
      ensures computePipelines == old(computePipelines)
    {
      graphicsPipelines := graphicsPipelines[key := (created, 0)];
      r := created;
    }

    /** The cached compute pipeline of `key`, whose age is reset; None on a miss. */
    method GetComputePipeline(key: Key) returns (r: Option<Handle>)
      modifies this
      ensures key in old(computePipelines) <==> r.Some?
      ensures r.Some? ==> r.value == old(computePipelines)[key].0
      ensures computePipelines == Touched(old(computePipelines), key)
      ensures graphicsPipelines == old(graphicsPipelines)
    {
      if key in computePipelines {
        var entry := computePipelines[key];
        computePipelines := computePipelines[key := (entry.0, 0)];
        r := Some(entry.0);
      } else {
        r := None;
      }
    }

    /** Stores the compute pipeline the device created for `key` and returns it. */
    method CreateComputePipeline(key: Key, created: Handle) returns (r: Handle)
      modifies this
      ensures r == created
      ensures computePipelines == Stored(old(computePipelines), key, created)
      ensures graphicsPipelines == old(graphicsPipelines)
    {
      computePipelines := computePipelines[key := (created, 0)];
      r := created;
    }

    /** Once per frame: evicts the pipelines 50 frames old and ages the others, in both maps. */
    method Cycle()
      modifies this
      ensures graphicsPipelines == Aged(old(graphicsPipelines), PIPELINE_LIFETIME_FRAMES)
      ensures computePipelines == Aged(old(computePipelines), PIPELINE_LIFETIME_FRAMES)
    {
      graphicsPipelines := Retained(graphicsPipelines, PIPELINE_LIFETIME_FRAMES);
      graphicsPipelines := IncrementAll(graphicsPipelines);
      computePipelines := Retained(computePipelines, PIPELINE_LIFETIME_FRAMES);
      computePipelines := IncrementAll(computePipelines);
    }
  }

  /**
   * The bind-group cache of the gpu API: per key, the bind groups created
   * for one draw, each paired with its group index, kept for 100 frames.
   */
  class BindGroupManager {
    var bindGroups: Aging<seq<(U32, Handle)>>

    constructor()
      ensures bindGroups == map[]
    {
      bindGroups := map[];
    }

    /** The cached list of `key`, whose age is reset; None on a miss. */
    method Get(key: Key) returns (r: Option<seq<(U32, Handle)>>)
      modifies this
      ensures key in old(bindGroups) <==> r.Some?
      ensures r.Some? ==> r.value == old(bindGroups)[key].0
      ensures bindGroups == Touched(old(bindGroups), key)
    {
      if key in bindGroups {
        var entry := bindGroups[key];
        bindGroups := bindGroups[key := (entry.0, 0)];
        r := Some(entry.0);
      } else {
        r := None;
      }
    }

    /**
     * Creates one bind group per (layout group, entries) pair of `info`,
     * in order, stores the list under `key` and returns it. `created[i]` is
     * the bind group the device returns for the i-th pair.
     */
    method Create(key: Key, groups: seq<U32>, created: seq<Handle>) returns (r: seq<(U32, Handle)>)
      requires |groups| == |created|
      modifies this
      ensures |r| == |groups|
      ensures forall i :: 0 <= i < |r| ==> r[i] == (groups[i], created[i])
      ensures bindGroups == Stored(old(bindGroups), key, r)
    {
      r := [];
      var i := 0;
      while i < |groups|
        invariant 0 <= i <= |groups|
        invariant |r| == i
        invariant forall j :: 0 <= j < i ==> r[j] == (groups[j], created[j])
      {
        r := r + [(groups[i], created[i])];
        i := i + 1;
      }
      bindGroups := bindGroups[key := (r, 0)];
    }

    /** Once per frame: evicts the lists 100 frames old and ages the others. */
    method Cycle()
      modifies this
      ensures bindGroups == Aged(old(bindGroups), BIND_GROUP_LIFETIME)
    {
      bindGroups := Retained(bindGroups, BIND_GROUP_LIFETIME);
      bindGroups := IncrementAll(bindGroups);
    }
  }

  /** `get` right after `create` of the same key finds exactly what was stored, with age 0. */
  lemma FetchAfterStore<V>(m: Aging<V>, k: Key, v: V)
    ensures k in Stored(m, k, v) && Stored(m, k, v)[k].0 == v
    ensures Touched(Stored(m, k, v), k) == Stored(m, k, v)
  {
  }
}
