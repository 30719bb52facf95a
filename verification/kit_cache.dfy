/** `get_cached_kit`: the process-wide kit cache, modelled as a map threaded through the
    calls; a kit is an opaque value of type `Kit`. */
module KitCache {
  import opened Base

  /** `get_cached_kit`: on a hit the stored kit is returned and nothing is built; on a miss
      the factory's kit is stored under the key and returned. Only the key's own entry can
      change. Returns the new cache, the kit, and whether the factory was called. */
  function GetCachedKit<Kit>(cache: map<string, Kit>, key: string, factory: () -> Kit): (r: (map<string, Kit>, Kit, bool))
    ensures key in cache ==> r == (cache, cache[key], false)
    ensures key !in cache ==> r.2 && r.1 == factory() && r.0 == cache[key := r.1]
  {
    if key in cache then (cache, cache[key], false)
    else
      var kit := factory();
      (cache[key := kit], kit, true)
  }

  /** A lookup leaves the key cached with the kit it returned, and every other entry as it
      was: a miss adds only its own key. */
  lemma LookupChangesOnlyItsKey<Kit>(cache: map<string, Kit>, key: string, factory: () -> Kit)
    ensures var (c1, kit, _) := GetCachedKit(cache, key, factory);
      key in c1 && c1[key] == kit &&
      c1.Keys == cache.Keys + {key} &&
      (forall k :: k in cache ==> c1[k] == cache[k])
  {
  }

  /** Once a key is cached, every later lookup returns that same kit, whatever factory it
      is given, and builds nothing. */
  lemma SecondLookupHits<Kit>(cache: map<string, Kit>, key: string, f: () -> Kit, g: () -> Kit)
    ensures var (c1, k1, _) := GetCachedKit(cache, key, f);
      GetCachedKit(c1, key, g) == (c1, k1, false)
  {
  }
}

/** `list_provider_models`: the model ids a provider kit reports. The kit's `list_models`
    call is a parameter: its result arrives as `models`, `None` when it returned nothing. */
module ProviderModels {
  import opened Base

  /** One entry of `kit.list_models(...)`, dict or object: its `id`, possibly missing. */
  datatype ModelRecord = ModelRecord(id: Option<string>)

  /** An id that counts: present and non-empty (Python truthiness of a string). */
  predicate Usable(id: Option<string>) {
    id.Some? && id.value != ""
  }

  predicate NoDuplicates(s: seq<string>) {
    forall a, b :: 0 <= a < b < |s| ==> s[a] != s[b]
  }

  /** The position of the first record carrying `id`, or `|models|` when none does. */
  function First(models: seq<ModelRecord>, id: string): (i: nat)
    ensures i <= |models|
    ensures i < |models| ==> models[i].id == Some(id)
    ensures forall j :: 0 <= j < i ==> models[j].id != Some(id)
  {
    FirstFrom(models, id, 0)
  }

  function FirstFrom(models: seq<ModelRecord>, id: string, k: nat): (i: nat)
    requires k <= |models|
    requires forall j :: 0 <= j < k ==> models[j].id != Some(id)
    ensures k <= i <= |models|
    ensures i < |models| ==> models[i].id == Some(id)
    ensures forall j :: 0 <= j < i ==> models[j].id != Some(id)
    decreases |models| - k
  {
    if k == |models| || models[k].id == Some(id) then k
    else FirstFrom(models, id, k + 1)
  }

  /** Some record carries `id`. */
  predicate Occurs(models: seq<ModelRecord>, id: string) {
    First(models, id) < |models|
  }

  /** Reference definition: the ids the loop has collected after the first `n` records. */
  function DedupIds(models: seq<ModelRecord>, n: nat): seq<string>
    requires n <= |models|
  {
    if n == 0 then []
    else
      var prev := DedupIds(models, n - 1);
      var id := models[n - 1].id;
      if Usable(id) && id.value !in prev then prev + [id.value] else prev
  }

  /** What the first `n` records yield: each usable id met among them, exactly once, in order of
      first occurrence. */
  lemma {:induction false} DedupIdsMeaning(models: seq<ModelRecord>, n: nat)
    requires n <= |models|
    ensures var r := DedupIds(models, n);
      && NoDuplicates(r)
      && (forall x :: x in r <==> x != "" && First(models, x) < n)
      && (forall a :: 0 <= a < |r| ==> First(models, r[a]) < n)
      && (forall a, b :: 0 <= a < b < |r| ==> First(models, r[a]) < First(models, r[b]))
  {
    if n > 0 {
      DedupIdsMeaning(models, n - 1);
      var prev := DedupIds(models, n - 1);
      var id := models[n - 1].id;
      forall x | x != "" && First(models, x) == n - 1
        ensures Usable(id) && x == id.value
      {
      }
      if Usable(id) && id.value !in prev {
        assert First(models, id.value) == n - 1;
        var r := prev + [id.value];
        assert forall a :: 0 <= a < |prev| ==> r[a] == prev[a];
      }
    }
  }

  /** `list_provider_models`: the usable ids, each once, in order of first occurrence. A
      missing list is an empty one. */
  method ListProviderModels(models: Option<seq<ModelRecord>>) returns (ids: seq<string>)
    ensures NoDuplicates(ids)
    ensures models.None? ==> ids == []
    ensures models.Some? ==> forall x :: x in ids <==> x != "" && Occurs(models.value, x)
    ensures models.Some? ==> forall a, b :: 0 <= a < b < |ids| ==>
      First(models.value, ids[a]) < First(models.value, ids[b])
  {
    var ms := if models.Some? then models.value else [];
    ids := [];
    var seen: set<string> := {};
    var i := 0;
    while i < |ms|
      invariant 0 <= i <= |ms|
      invariant ids == DedupIds(ms, i)
      invariant forall x :: x in seen <==> x in ids
    {
      var id := ms[i].id;
      if Usable(id) && id.value !in seen {
        seen := seen + {id.value};
        ids := ids + [id.value];
      }
      i := i + 1;
    }
    DedupIdsMeaning(ms, |ms|);
  }
}
