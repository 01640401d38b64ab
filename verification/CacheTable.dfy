// The cache table as the program stores it: the metadata of every cache, and
// an index from priority to the caches of that priority, changed in place.

module CacheTable {
  import opened Types
  import opened CacheMap

  class CacheData<K(==)> {
    var priorityMap: map<byte, set<K>>
    var caches: map<K, Meta>

    // The index is exactly the table grouped by priority.
    ghost predicate Valid()
      reads this
    {
      priorityMap == GroupBy(caches)
    }

    constructor ()
      ensures Valid() && caches == map[]
    {
      priorityMap := map[];
      caches := map[];
    }

    constructor Clone(other: CacheData<K>)
      requires other.Valid()
      ensures Valid() && caches == other.caches
    {
      priorityMap := other.priorityMap;
      caches := other.caches;
    }

    predicate Contains(cache: K)
      reads this
    {
      cache in caches
    }

    function GetMeta(cache: K): Option<Meta>
      reads this
    {
      if cache in caches then Some(caches[cache]) else None
    }

    // The order in which buckets are visited: lowest priority number first.
    function IterPriorities(): (r: seq<byte>)
      reads this
      ensures forall i, j | 0 <= i < j < |r| :: r[i] < r[j]
      ensures forall p :: p in r <==> p in priorityMap
    {
      Ascending(priorityMap.Keys)
    }

    // Drops a cache from its bucket, and the bucket when that was the last one.
    // That the bucket exists is the obligation behind the source's "Invalid
    // state" panics.
    method TakeOut(p: byte, cache: K)
      requires p in priorityMap
      modifies this`priorityMap
      ensures priorityMap == WithoutCache(old(priorityMap), p, cache)
    {
      var bucket := priorityMap[p] - {cache};
      if bucket == {} {
        priorityMap := priorityMap - {p};
      } else {
        priorityMap := priorityMap[p := bucket];
      }
    }

    method PutIn(p: byte, cache: K)
      modifies this`priorityMap
      ensures priorityMap == WithCache(old(priorityMap), p, cache)
    {
      var bucket := if p in priorityMap then priorityMap[p] else {};
      priorityMap := priorityMap[p := bucket + {cache}];
    }

    method InsertCache(priority: byte, strategy: ErrorStrategy, cache: K)
      requires Valid()
      modifies this
      ensures Valid()
      ensures caches == Insert(old(caches), priority, strategy, cache)
    {
      GroupByInsert(caches, priority, strategy, cache);
      if cache in caches {
        var meta := caches[cache];
        if meta.priority != priority {
          TakeOut(meta.priority, cache);
          PutIn(priority, cache);
          caches := caches[cache := meta.(priority := priority)];
        }
      } else {
        caches := caches[cache := Meta(priority, strategy, None)];
        PutIn(priority, cache);
      }
    }

    method Remove(url: K) returns (removed: bool)
      requires Valid()
      modifies this
      ensures Valid()
      ensures removed <==> url in old(caches)
      ensures caches == CacheMap.Remove(old(caches), url)
    {
      if url in caches {
        GroupByWithout(caches, url);
        var meta := caches[url];
        caches := caches - {url};
        TakeOut(meta.priority, url);
        removed := true;
      } else {
        removed := false;
      }
    }

    // The assignment made through get_meta_mut.
    method SetTimedOutUntil(url: K, until: Instant)
      requires Valid()
      requires url in caches
      modifies this
      ensures Valid()
      ensures caches == old(caches)[url := old(caches)[url].(timedOutUntil := Some(until))]
    {
      GroupBySamePriority(caches, url, caches[url].(timedOutUntil := Some(until)));
      caches := caches[url := caches[url].(timedOutUntil := Some(until))];
    }
  }
}
