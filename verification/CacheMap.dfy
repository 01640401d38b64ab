// The reference definition of the cache table: one map from cache to metadata,
// with the priority index derived from it. The table with two maps kept in
// step (CacheData) is proved against this one, and a table keyed by pointers
// against one keyed by the values the pointers stand for.

module CacheMap {
  import opened Types

  // A new cache gets the given strategy and no timeout; a known cache only
  // changes its priority.
  function Insert<K(==)>(m: map<K, Meta>, priority: byte, strategy: ErrorStrategy, k: K): map<K, Meta> {
    if k in m then m[k := m[k].(priority := priority)]
    else m[k := Meta(priority, strategy, None)]
  }

  function Remove<K(==)>(m: map<K, Meta>, k: K): map<K, Meta> {
    m - {k}
  }

  function RemoveAll<K(==)>(m: map<K, Meta>, ks: set<K>): map<K, Meta> {
    m - ks
  }

  // What a report about a bad cache does to the table.
  function Punish<K(==)>(m: map<K, Meta>, k: K, now: Instant): map<K, Meta> {
    if k !in m then m
    else match m[k].strategy
      case RemoveCache => Remove(m, k)
      case TimeoutFor(timeout) => m[k := m[k].(timedOutUntil := Some(now + timeout))]
  }

  function Priorities<K(==)>(m: map<K, Meta>): set<byte> {
    set k | k in m :: m[k].priority
  }

  function Bucket<K(==)>(m: map<K, Meta>, p: byte): set<K> {
    set k | k in m && m[k].priority == p
  }

  // The caches grouped by priority.
  function GroupBy<K(==)>(m: map<K, Meta>): map<byte, set<K>> {
    map p | p in Priorities(m) :: Bucket(m, p)
  }

  lemma GroupsPartition<K>(m: map<K, Meta>)
    ensures forall p | p in GroupBy(m) :: GroupBy(m)[p] != {}
    ensures forall p, q | p in GroupBy(m) && q in GroupBy(m) && p != q :: GroupBy(m)[p] !! GroupBy(m)[q]
    ensures forall p, k | p in GroupBy(m) && k in GroupBy(m)[p] :: k in m && m[k].priority == p
    ensures forall k | k in m :: m[k].priority in GroupBy(m) && k in GroupBy(m)[m[k].priority]
  {
    forall p | p in GroupBy(m)
      ensures GroupBy(m)[p] != {}
    {
      var k :| k in m && m[k].priority == p;
      assert k in GroupBy(m)[p];
    }
  }

  // Taking a cache out of its bucket, and the bucket out of the index once it
  // is empty.
  function WithoutCache<K(==)>(index: map<byte, set<K>>, p: byte, k: K): map<byte, set<K>>
    requires p in index
  {
    var rest := index[p] - {k};
    if rest == {} then index - {p} else index[p := rest]
  }

  // Putting a cache into the bucket of its priority, made when missing.
  function WithCache<K(==)>(index: map<byte, set<K>>, p: byte, k: K): map<byte, set<K>> {
    index[p := (if p in index then index[p] else {}) + {k}]
  }

  // The three ways an index moves when one cache changes.

  lemma GroupByWithout<K>(m: map<K, Meta>, k: K)
    requires k in m
    ensures m[k].priority in GroupBy(m)
    ensures var p := m[k].priority;
            GroupBy(m - {k}) == WithoutCache(GroupBy(m), p, k)
  {
    var p := m[k].priority;
    var m' := m - {k};
    var rest := GroupBy(m)[p] - {k};
    assert rest == Bucket(m', p);
    forall q
      ensures q in Priorities(m') <==> q in Priorities(m) && (q != p || rest != {})
    {
      if q in Priorities(m') {
        var j :| j in m' && m'[j].priority == q;
        assert j in m && m[j].priority == q;
        assert q == p ==> j in rest;
      }
      if q in Priorities(m) && q != p {
        var j :| j in m && m[j].priority == q;
        assert j in m' && m'[j].priority == q;
      }
      if q == p && rest != {} {
        var j :| j in rest;
        assert j in m' && m'[j].priority == q;
      }
    }
    forall q | q in Priorities(m') && q != p
      ensures Bucket(m', q) == Bucket(m, q)
    {
    }
  }

  lemma GroupByWith<K>(m: map<K, Meta>, k: K, meta: Meta)
    requires k !in m
    ensures GroupBy(m[k := meta]) == WithCache(GroupBy(m), meta.priority, k)
  {
    var p := meta.priority;
    var m' := m[k := meta];
    var bucket := if p in GroupBy(m) then GroupBy(m)[p] else {};
    assert Bucket(m', p) == bucket + {k};
    forall q
      ensures q in Priorities(m') <==> q in Priorities(m) || q == p
    {
      if q in Priorities(m) {
        var j :| j in m && m[j].priority == q;
        assert j in m' && m'[j].priority == q;
      }
      assert k in m' && m'[k].priority == p;
    }
    forall q | q in Priorities(m') && q != p
      ensures Bucket(m', q) == Bucket(m, q)
    {
    }
  }

  lemma GroupBySamePriority<K>(m: map<K, Meta>, k: K, meta: Meta)
    requires k in m && meta.priority == m[k].priority
    ensures GroupBy(m[k := meta]) == GroupBy(m)
  {
    var m' := m[k := meta];
    assert forall j | j in m :: m'[j].priority == m[j].priority;
    assert Priorities(m') == Priorities(m);
    forall q | q in Priorities(m')
      ensures Bucket(m', q) == Bucket(m, q)
    {
    }
  }

  lemma GroupByInsert<K>(m: map<K, Meta>, priority: byte, strategy: ErrorStrategy, k: K)
    ensures k in m ==> m[k].priority in GroupBy(m)
    ensures GroupBy(Insert(m, priority, strategy, k)) ==
            if k !in m then WithCache(GroupBy(m), priority, k)
            else if m[k].priority == priority then GroupBy(m)
            else WithCache(WithoutCache(GroupBy(m), m[k].priority, k), priority, k)
  {
    if k !in m {
      GroupByWith(m, k, Meta(priority, strategy, None));
    } else if m[k].priority == priority {
      GroupBySamePriority(m, k, m[k]);
      GroupByWithout(m, k);
      assert Insert(m, priority, strategy, k) == m;
    } else {
      GroupByWithout(m, k);
      GroupByWith(m - {k}, k, m[k].(priority := priority));
      assert (m - {k})[k := m[k].(priority := priority)] == Insert(m, priority, strategy, k);
    }
  }

  // The priorities of an index in ascending order, the order a BTreeMap is
  // walked in.
  function Ascending(ps: set<byte>): (r: seq<byte>)
    ensures forall p :: p in r <==> p in ps
    ensures forall i, j | 0 <= i < j < |r| :: r[i] < r[j]
    decreases |ps|
  {
    if ps == {} then []
    else
      var least := Least(ps);
      var rest := Ascending(ps - {least});
      assert forall p :: p in [least] + rest <==> p == least || p in rest;
      assert forall i | 0 <= i < |rest| :: rest[i] in ps - {least};
      [least] + rest
  }

  function Least(ps: set<byte>): (least: byte)
    requires ps != {}
    ensures least in ps && forall p | p in ps :: least <= p
  {
    assert exists least :: least in ps && forall p | p in ps :: least <= p by {
      var least := FindLeast(ps);
    }
    var least :| least in ps && forall p | p in ps :: least <= p;
    least
  }

  lemma {:induction false} FindLeast(ps: set<byte>) returns (least: byte)
    requires ps != {}
    ensures least in ps && forall p | p in ps :: least <= p
    decreases ps
  {
    var p0 :| p0 in ps;
    var others := ps - {p0};
    assert forall p | p in ps :: p == p0 || p in others;
    least := p0;
    if others != {} {
      var other := FindLeast(others);
      if other < p0 {
        least := other;
      }
    }
  }
}
