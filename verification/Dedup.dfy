// Interning: a handle is the address of a shared, reference-counted value, and
// handles are compared by address. The deduper keeps every value it has ever
// interned alive, so an address is never reused for another value.

module Dedup {
  import opened Types
  import opened CacheMap

  // An address of the heap.
  type Addr = nat

  // `values` maps the address of each interned value to that value.
  ghost predicate OneAddressPerValue<T(!new)>(values: map<Addr, T>) {
    forall a, b | a in values && b in values && values[a] == values[b] :: a == b
  }

  // The state and the handle after interning `value`: the address of the value
  // when it is there, otherwise an address that is not in use.
  ghost predicate Interns<T(!new)>(values: map<Addr, T>, value: T, values': map<Addr, T>, handle: Addr) {
    if value in values.Values then values' == values && handle in values && values[handle] == value
    else handle !in values && values' == values[handle := value]
  }

  class Deduper<T(==,!new)> {
    var values: map<Addr, T>

    ghost predicate Valid()
      reads this
    {
      OneAddressPerValue(values)
    }

    constructor ()
      ensures Valid() && values == map[]
    {
      values := map[];
    }

    method GetOrInsert(value: T) returns (handle: Addr)
      requires Valid()
      modifies this
      ensures Valid()
      ensures Interns(old(values), value, values, handle)
      ensures handle in values && values[handle] == value
      ensures forall a | a in old(values) :: a in values && values[a] == old(values)[a]
    {
      if a :| a in values && values[a] == value {
        handle := a;
      } else {
        handle := Allocate(values.Keys);
        values := values[handle := value];
      }
    }
  }

  // The allocator: all that is known of its choice is that the address is not
  // that of a live value.
  method Allocate(live: set<Addr>) returns (a: Addr)
    ensures a !in live
  {
    a := 0;
    var above := live;
    while a in live
      invariant above <= live
      invariant forall x | x in live && x !in above :: x < a
      invariant forall x | x in above :: a <= x
      decreases above
    {
      above := above - {a};
      a := a + 1;
    }
  }

  datatype Call<T> = Call(value: T, handle: Addr)

  // `values` becomes `values'` over a sequence of calls, each recorded with
  // the handle it returned.
  ghost predicate InternsAll<T(!new)>(values: map<Addr, T>, calls: seq<Call<T>>, values': map<Addr, T>) {
    if calls == [] then values' == values
    else
      var last := calls[|calls| - 1];
      exists mid: map<Addr, T> ::
        && InternsAll(values, calls[..|calls| - 1], mid)
        && Interns(mid, last.value, values', last.handle)
  }

  // Over any sequence of calls, two handles are the same pointer exactly when
  // they were made from equal values.
  lemma {:induction false} HandlesIdentifyValues<T(!new)>(calls: seq<Call<T>>, values: map<Addr, T>)
    requires InternsAll(map[], calls, values)
    ensures OneAddressPerValue(values)
    ensures forall i | 0 <= i < |calls| :: calls[i].handle in values && values[calls[i].handle] == calls[i].value
    ensures forall i, j | 0 <= i < |calls| && 0 <= j < |calls| ::
              calls[i].handle == calls[j].handle <==> calls[i].value == calls[j].value
  {
    if calls != [] {
      var n := |calls| - 1;
      var mid :| InternsAll(map[], calls[..n], mid) && Interns(mid, calls[n].value, values, calls[n].handle);
      HandlesIdentifyValues(calls[..n], mid);
      forall i | 0 <= i < |calls|
        ensures calls[i].handle in values && values[calls[i].handle] == calls[i].value
      {
        if i < n {
          assert calls[..n][i] == calls[i];
        }
      }
    }
  }

  // The address of each value.
  ghost predicate IsInverse<T(!new)>(values: map<Addr, T>, home: map<T, Addr>) {
    && (forall a | a in values :: values[a] in home && home[values[a]] == a)
    && (forall v | v in home :: home[v] in values && values[home[v]] == v)
  }

  ghost function Home<T(!new)>(values: map<Addr, T>): (home: map<T, Addr>)
    requires OneAddressPerValue(values)
    ensures IsInverse(values, home)
  {
    assert IsInverse(values, map a | a in values :: values[a] := a);
    var home :| IsInverse(values, home);
    home
  }

  // Reading a map keyed by handles as one keyed by the values behind them.
  ghost function Rename<T(!new), V>(m: map<Addr, V>, values: map<Addr, T>): map<T, V>
    requires m.Keys <= values.Keys
    requires OneAddressPerValue(values)
  {
    var home := Home(values);
    map v | v in home && home[v] in m :: m[home[v]]
  }

  datatype Op<K> =
    | InsertOp(priority: byte, strategy: ErrorStrategy, cache: K)
    | RemoveOp(cache: K)
    | PunishOp(cache: K, now: Instant)

  function Apply<K(==)>(m: map<K, Meta>, op: Op<K>): map<K, Meta> {
    match op
    case InsertOp(p, s, k) => Insert(m, p, s, k)
    case RemoveOp(k) => CacheMap.Remove(m, k)
    case PunishOp(k, now) => Punish(m, k, now)
  }

  function ApplyAll<K(==)>(m: map<K, Meta>, ops: seq<Op<K>>): map<K, Meta> {
    if ops == [] then m
    else Apply(ApplyAll(m, ops[..|ops| - 1]), ops[|ops| - 1])
  }

  function RenameOp<T>(op: Op<Addr>, values: map<Addr, T>): Op<T>
    requires op.cache in values
  {
    match op
    case InsertOp(p, s, k) => InsertOp(p, s, values[k])
    case RemoveOp(k) => RemoveOp(values[k])
    case PunishOp(k, now) => PunishOp(values[k], now)
  }

  function RenameOps<T>(ops: seq<Op<Addr>>, values: map<Addr, T>): seq<Op<T>>
    requires forall i | 0 <= i < |ops| :: ops[i].cache in values
  {
    seq(|ops|, i requires 0 <= i < |ops| => RenameOp(ops[i], values))
  }

  lemma RenameEntry<T(!new), V>(m: map<Addr, V>, values: map<Addr, T>, a: Addr)
    requires m.Keys <= values.Keys
    requires OneAddressPerValue(values)
    requires a in values
    ensures a in m <==> values[a] in Rename(m, values)
    ensures a in m ==> Rename(m, values)[values[a]] == m[a]
  {
  }

  lemma ApplySimulates<T(!new)>(m: map<Addr, Meta>, values: map<Addr, T>, op: Op<Addr>)
    requires m.Keys <= values.Keys
    requires OneAddressPerValue(values)
    requires op.cache in values
    ensures Apply(m, op).Keys <= values.Keys
    ensures Rename(Apply(m, op), values) == Apply(Rename(m, values), RenameOp(op, values))
  {
  }

  // Any run on a table keyed by handles is, read through the handles, the same
  // run on a table keyed by the values; and the priority index agrees too.
  lemma {:induction false} PointerTableSimulatesValueTable<T(!new)>(values: map<Addr, T>, ops: seq<Op<Addr>>)
    requires OneAddressPerValue(values)
    requires forall i | 0 <= i < |ops| :: ops[i].cache in values
    ensures ApplyAll(map[], ops).Keys <= values.Keys
    ensures Rename(ApplyAll(map[], ops), values) == ApplyAll(map[], RenameOps(ops, values))
    ensures var pointers := ApplyAll(map[], ops);
            var plain := ApplyAll(map[], RenameOps(ops, values));
            && GroupBy(plain).Keys == GroupBy(pointers).Keys
            && forall p | p in GroupBy(pointers) :: GroupBy(plain)[p] == set a | a in GroupBy(pointers)[p] :: values[a]
  {
    if ops != [] {
      var n := |ops| - 1;
      PointerTableSimulatesValueTable(values, ops[..n]);
      assert RenameOps(ops, values)[..n] == RenameOps(ops[..n], values);
      ApplySimulates(ApplyAll(map[], ops[..n]), values, ops[n]);
    }
    IndexFollows(ApplyAll(map[], ops), values);
  }

  // In particular on a table keyed by the handles a deduper has given out.
  lemma {:induction false} InternedTableSimulates<T(!new)>(calls: seq<Call<T>>, values: map<Addr, T>,
                                                    ops: seq<Op<Addr>>)
    requires InternsAll(map[], calls, values)
    requires forall i | 0 <= i < |ops| :: exists j | 0 <= j < |calls| :: ops[i].cache == calls[j].handle
    ensures OneAddressPerValue(values)
    ensures forall i | 0 <= i < |ops| :: ops[i].cache in values
    ensures ApplyAll(map[], ops).Keys <= values.Keys
    ensures Rename(ApplyAll(map[], ops), values) == ApplyAll(map[], RenameOps(ops, values))
  {
    HandlesIdentifyValues(calls, values);
    PointerTableSimulatesValueTable(values, ops);
  }

  lemma {:induction false} IndexFollows<T(!new)>(m: map<Addr, Meta>, values: map<Addr, T>)
    requires m.Keys <= values.Keys
    requires OneAddressPerValue(values)
    ensures GroupBy(Rename(m, values)).Keys == GroupBy(m).Keys
    ensures forall p | p in GroupBy(m) :: GroupBy(Rename(m, values))[p] == set a | a in GroupBy(m)[p] :: values[a]
  {
    var plain := Rename(m, values);
    forall p: byte
      ensures p in Priorities(m) <==> p in Priorities(plain)
    {
      BucketFollows(m, values, p);
    }
    assert GroupBy(plain).Keys == GroupBy(m).Keys;
    forall p | p in GroupBy(m)
      ensures GroupBy(plain)[p] == set a | a in GroupBy(m)[p] :: values[a]
    {
      BucketFollows(m, values, p);
      assert GroupBy(plain)[p] == Bucket(plain, p);
      assert GroupBy(m)[p] == Bucket(m, p);
    }
  }

  lemma BucketFollows<T(!new)>(m: map<Addr, Meta>, values: map<Addr, T>, p: byte)
    requires m.Keys <= values.Keys
    requires OneAddressPerValue(values)
    ensures p in Priorities(m) <==> p in Priorities(Rename(m, values))
    ensures Bucket(Rename(m, values), p) == set a | a in Bucket(m, p) :: values[a]
  {
    var plain := Rename(m, values);
    if p in Priorities(m) {
      var a :| a in m && m[a].priority == p;
      RenameEntry(m, values, a);
    }
    if p in Priorities(plain) {
      var v :| v in plain && plain[v].priority == p;
      var a :| a in m && values[a] == v;
      RenameEntry(m, values, a);
    }
    var image := set a | a in Bucket(m, p) :: values[a];
    forall v
      ensures v in Bucket(plain, p) <==> v in image
    {
      if v in Bucket(plain, p) {
        var a :| a in m && values[a] == v;
        RenameEntry(m, values, a);
        assert a in Bucket(m, p);
      }
      if v in image {
        var a :| a in Bucket(m, p) && values[a] == v;
        RenameEntry(m, values, a);
      }
    }
  }
}
