/** The reference-count arithmetic of `InodeCache`, on values.

    A cache maps a (device, number) key to a 64-bit count and a node.  What a node
    is stays open: the class in InodeCache.dfy uses heap objects, the protocol in
    Protocol.dfy uses addresses, and both are proved against these functions. */
module RefCounts {
  const TWO_64: nat := 0x1_0000_0000_0000_0000

  type uint64 = n: nat | n < TWO_64

  datatype Key = Key(dev: nat, ino: nat)

  datatype Slot<I> = Slot(refcnt: uint64, node: I)

  type Cache<I> = map<Key, Slot<I>>

  /** The outcome of `Ref` and `Unref`: the internal error for an absent key, the
      failed CHECK on the count, or the new cache. */
  datatype Change<I> =
    | NoEntry
    | Underflow
    | Updated(cache: Cache<I>)

  function Wrap(n: nat): uint64 {
    n % TWO_64
  }

  function Insert<I>(c: Cache<I>, k: Key, node: I): Cache<I> {
    if k in c then c[k := Slot(Wrap(c[k].refcnt + 1), c[k].node)] else c[k := Slot(1, node)]
  }

  function Ref<I>(c: Cache<I>, k: Key, n: uint64): Change<I> {
    if k !in c then NoEntry else Updated(c[k := Slot(Wrap(c[k].refcnt + n), c[k].node)])
  }

  function Unref<I>(c: Cache<I>, k: Key, n: uint64): Change<I> {
    if k !in c then NoEntry
    else if c[k].refcnt < n then Underflow
    else if c[k].refcnt == n then Updated(c - {k})
    else Updated(c[k := Slot(c[k].refcnt - n, c[k].node)])
  }

  function Count<I>(c: Cache<I>, k: Key): nat {
    if k in c then c[k].refcnt else 0
  }

  function Copies<T>(x: T, n: nat): multiset<T> {
    multiset{}[x := n]
  }

  /** The cache holds exactly the references in `refs`: a key is cached when and
      only when something refers to it, and its count is how often. */
  ghost predicate Represents<I>(c: Cache<I>, refs: multiset<Key>) {
    forall k: Key :: (k in c <==> refs[k] > 0) && Count(c, k) == refs[k]
  }

  ghost predicate SameNodes<I>(c: Cache<I>, c': Cache<I>) {
    forall k | k in c && k in c' :: c[k].node == c'[k].node
  }

  // ---- The cache refines a multiset of keys

  lemma InsertAddsOne<I>(c: Cache<I>, refs: multiset<Key>, k: Key, node: I)
    requires Represents(c, refs) && refs[k] + 1 < TWO_64
    ensures Represents(Insert(c, k, node), refs + multiset{k})
    ensures SameNodes(c, Insert(c, k, node))
  {
    var c' := Insert(c, k, node);
    forall x: Key ensures (x in c' <==> (refs + multiset{k})[x] > 0) && Count(c', x) == (refs + multiset{k})[x] {
      assert (x in c <==> refs[x] > 0) && Count(c, x) == refs[x];
    }
  }

  lemma RefAdds<I>(c: Cache<I>, refs: multiset<Key>, k: Key, n: uint64)
    requires Represents(c, refs) && refs[k] + n < TWO_64
    ensures Ref(c, k, n).NoEntry? <==> k !in refs
    ensures Ref(c, k, n).Updated? ==>
      Represents(Ref(c, k, n).cache, refs + Copies(k, n)) && SameNodes(c, Ref(c, k, n).cache)
    ensures !Ref(c, k, n).Underflow?
  {
    assert (k in c <==> refs[k] > 0) && Count(c, k) == refs[k];
    if k in c {
      var c' := Ref(c, k, n).cache;
      forall x: Key ensures (x in c' <==> (refs + Copies(k, n))[x] > 0) && Count(c', x) == (refs + Copies(k, n))[x] {
        assert (x in c <==> refs[x] > 0) && Count(c, x) == refs[x];
      }
    }
  }

  lemma UnrefKeepsNodes<I>(c: Cache<I>, k: Key, n: uint64)
    ensures Unref(c, k, n).Updated? ==> SameNodes(c, Unref(c, k, n).cache)
  {}

  lemma UnrefSubtracts<I>(c: Cache<I>, refs: multiset<Key>, k: Key, n: uint64)
    requires Represents(c, refs)
    ensures Unref(c, k, n).NoEntry? <==> k !in refs
    ensures Unref(c, k, n).Underflow? <==> 0 < refs[k] < n
    ensures Unref(c, k, n).Updated? ==>
      Represents(Unref(c, k, n).cache, refs - Copies(k, n)) && SameNodes(c, Unref(c, k, n).cache)
  {
    assert (k in c <==> refs[k] > 0) && Count(c, k) == refs[k];
    if k in c && n <= refs[k] {
      var c' := Unref(c, k, n).cache;
      forall x: Key ensures (x in c' <==> (refs - Copies(k, n))[x] > 0) && Count(c', x) == (refs - Copies(k, n))[x] {
        assert (x in c <==> refs[x] > 0) && Count(c, x) == refs[x];
      }
    }
  }

  // ---- Balances: what a handler changed, relative to where it started

  ghost predicate Positive<I>(c: Cache<I>) {
    forall k | k in c :: c[k].refcnt > 0
  }

  /** `c'` is `c` with the references in `more` added: keys that were there keep their
      nodes, and a key is there when it was before or is referred to now. */
  ghost predicate Shifted<I>(c: Cache<I>, c': Cache<I>, more: multiset<Key>) {
    && (forall k | k in c :: k in c' && c'[k].node == c[k].node)
    && (forall k: Key :: k in c' <==> k in c || more[k] > 0)
    && (forall k: Key :: Count(c', k) == Count(c, k) + more[k])
  }

  /** A balance of nothing is no change at all: same keys, counts and nodes. */
  lemma ShiftedByNothing<I>(c: Cache<I>, c': Cache<I>)
    ensures Shifted(c, c', multiset{}) <==> c == c'
  {
    var none: multiset<Key> := multiset{};
    if Shifted(c, c', none) {
      forall k | k in c ensures c'[k] == c[k] {
        assert Count(c', k) == Count(c, k) + none[k];
      }
      assert c.Keys == c'.Keys;
    }
  }

  lemma ShiftInsert<I>(c: Cache<I>, c': Cache<I>, more: multiset<Key>, k: Key, node: I)
    requires Shifted(c, c', more) && Count(c, k) + more[k] + 1 < TWO_64
    ensures Shifted(c, Insert(c', k, node), more + multiset{k})
  {
    var c'' := Insert(c', k, node);
    assert Count(c', k) == Count(c, k) + more[k];
    forall x: Key
      ensures Count(c'', x) == Count(c, x) + (more + multiset{k})[x]
      ensures x in c'' <==> x in c || (more + multiset{k})[x] > 0
    {
      assert Count(c', x) == Count(c, x) + more[x];
    }
  }

  lemma ShiftRef<I>(c: Cache<I>, c': Cache<I>, more: multiset<Key>, k: Key)
    requires Shifted(c, c', more) && k in c' && Count(c, k) + more[k] + 1 < TWO_64
    ensures Ref(c', k, 1).Updated? && Shifted(c, Ref(c', k, 1).cache, more + multiset{k})
  {
    forall x: Key ensures Count(Ref(c', k, 1).cache, x) == Count(c, x) + (more + multiset{k})[x] {
      assert Count(c', x) == Count(c, x) + more[x];
    }
  }

  /** Dropping a reference of the balance never underflows, and erases exactly the
      keys that are neither referred to any more nor were there at the start. */
  lemma ShiftUnref<I>(c: Cache<I>, c': Cache<I>, more: multiset<Key>, k: Key)
    requires Positive(c) && Shifted(c, c', more) && more[k] > 0
    ensures Unref(c', k, 1).Updated? && Shifted(c, Unref(c', k, 1).cache, more - multiset{k})
  {
    assert Count(c', k) == Count(c, k) + more[k];
    var c'' := Unref(c', k, 1).cache;
    forall x: Key
      ensures Count(c'', x) == Count(c, x) + (more - multiset{k})[x]
      ensures x in c'' <==> x in c || (more - multiset{k})[x] > 0
    {
      assert Count(c', x) == Count(c, x) + more[x];
    }
  }

  lemma ShiftedStaysPositive<I>(c: Cache<I>, c': Cache<I>, more: multiset<Key>)
    requires Positive(c) && Shifted(c, c', more)
    ensures Positive(c')
  {
    forall k | k in c' ensures c'[k].refcnt > 0 {
      assert Count(c', k) == Count(c, k) + more[k];
    }
  }

  // ---- Forgetting in batches

  /** `Unref` applied one by one; it stops at the first failure. */
  function ForgetAll<I>(c: Cache<I>, batch: seq<(Key, uint64)>): Cache<I>
    decreases |batch|
  {
    if batch == [] then c
    else
      match Unref(c, batch[0].0, batch[0].1)
      case Updated(c') => ForgetAll(c', batch[1..])
      case _ => c
  }

  function Total(batch: seq<(Key, uint64)>, k: Key): nat {
    if batch == [] then 0 else (if batch[0].0 == k then batch[0].1 else 0) + Total(batch[1..], k)
  }

  /** What a kernel may ask for: positive counts that add up to no more than it is owed. */
  ghost predicate Covered<I>(c: Cache<I>, batch: seq<(Key, uint64)>) {
    && (forall i | 0 <= i < |batch| :: batch[i].1 > 0)
    && (forall k: Key :: Total(batch, k) <= Count(c, k))
  }

  lemma CoveredStep<I>(c: Cache<I>, batch: seq<(Key, uint64)>)
    requires Positive(c) && Covered(c, batch) && batch != []
    ensures Unref(c, batch[0].0, batch[0].1).Updated?
    ensures var c' := Unref(c, batch[0].0, batch[0].1).cache;
      Positive(c') && Covered(c', batch[1..]) && SameNodes(c, c')
  {
    var k := batch[0].0;
    assert Total(batch, k) <= Count(c, k);
    var c' := Unref(c, k, batch[0].1).cache;
    forall x: Key ensures Total(batch[1..], x) <= Count(c', x) {
      assert Total(batch, x) <= Count(c, x);
    }
  }

  lemma {:induction false} CoveredConcat<I>(c: Cache<I>, xs: seq<(Key, uint64)>, ys: seq<(Key, uint64)>)
    requires Positive(c) && Covered(c, xs + ys)
    ensures ForgetAll(c, xs + ys) == ForgetAll(ForgetAll(c, xs), ys)
    decreases |xs|
  {
    if xs == [] {
      assert xs + ys == ys;
    } else {
      assert (xs + ys)[1..] == xs[1..] + ys;
      CoveredStep(c, xs + ys);
      CoveredConcat(Unref(c, xs[0].0, xs[0].1).cache, xs[1..], ys);
    }
  }

  /** A covered batch takes exactly its totals, erases exactly the keys it exhausts,
      and leaves the other nodes alone. */
  lemma {:induction false} ForgetAllSubtracts<I>(c: Cache<I>, batch: seq<(Key, uint64)>)
    requires Positive(c) && Covered(c, batch)
    ensures forall k: Key :: Count(ForgetAll(c, batch), k) == Count(c, k) - Total(batch, k)
    ensures forall k: Key :: k in ForgetAll(c, batch) <==> Count(c, k) > Total(batch, k)
    ensures forall k | k in ForgetAll(c, batch) :: k in c && ForgetAll(c, batch)[k].node == c[k].node
    decreases |batch|
  {
    if batch != [] {
      CoveredStep(c, batch);
      var c' := Unref(c, batch[0].0, batch[0].1).cache;
      ForgetAllSubtracts(c', batch[1..]);
      forall k: Key
        ensures Count(ForgetAll(c, batch), k) == Count(c, k) - Total(batch, k)
        ensures k in ForgetAll(c, batch) <==> Count(c, k) > Total(batch, k)
      {
        assert Count(ForgetAll(c', batch[1..]), k) == Count(c', k) - Total(batch[1..], k);
      }
    }
  }

  lemma {:induction false} TotalConcat(xs: seq<(Key, uint64)>, ys: seq<(Key, uint64)>, k: Key)
    ensures Total(xs + ys, k) == Total(xs, k) + Total(ys, k)
  {
    if xs == [] {
      assert xs + ys == ys;
    } else {
      assert (xs + ys)[1..] == xs[1..] + ys;
      TotalConcat(xs[1..], ys, k);
    }
  }

  lemma RemoveSame<T>(xs: seq<T>, ys: seq<T>, j: nat)
    requires multiset(xs) == multiset(ys) && xs != [] && j < |ys| && ys[j] == xs[0]
    ensures multiset(xs[1..]) == multiset(ys[..j] + ys[j + 1..])
  {
    assert xs == [xs[0]] + xs[1..];
    assert ys == ys[..j] + [ys[j]] + ys[j + 1..];
    var x, y := multiset(xs[1..]), multiset(ys[..j] + ys[j + 1..]);
    assert multiset(xs) == multiset{xs[0]} + x;
    assert multiset(ys) == multiset{ys[j]} + y;
    assert x == multiset(xs) - multiset{xs[0]} && y == multiset(ys) - multiset{xs[0]};
  }

  lemma {:induction false} TotalPermutes(xs: seq<(Key, uint64)>, ys: seq<(Key, uint64)>, k: Key)
    requires multiset(xs) == multiset(ys)
    ensures Total(xs, k) == Total(ys, k)
  {
    if xs == [] {
      assert |multiset(ys)| == |multiset(xs)|;
    } else {
      assert xs[0] in multiset(ys);
      var j :| 0 <= j < |ys| && ys[j] == xs[0];
      var rest := ys[..j] + ys[j + 1..];
      assert ys == ys[..j] + ([ys[j]] + ys[j + 1..]);
      RemoveSame(xs, ys, j);
      TotalPermutes(xs[1..], rest, k);
      TotalConcat(ys[..j], [ys[j]] + ys[j + 1..], k);
      TotalConcat(ys[..j], ys[j + 1..], k);
      assert ([ys[j]] + ys[j + 1..])[1..] == ys[j + 1..];
    }
  }

  /** The order of a covered batch does not matter. */
  lemma ForgetAllPermutes<I>(c: Cache<I>, xs: seq<(Key, uint64)>, ys: seq<(Key, uint64)>)
    requires Positive(c) && Covered(c, xs) && multiset(xs) == multiset(ys)
    ensures Covered(c, ys) && ForgetAll(c, xs) == ForgetAll(c, ys)
  {
    forall k: Key ensures Total(xs, k) == Total(ys, k) { TotalPermutes(xs, ys, k); }
    forall i | 0 <= i < |ys| ensures ys[i].1 > 0 {
      assert ys[i] in multiset(ys);
      assert ys[i] in multiset(xs);
      assert ys[i] in xs;
    }
    ForgetAllSubtracts(c, xs);
    ForgetAllSubtracts(c, ys);
    var x, y := ForgetAll(c, xs), ForgetAll(c, ys);
    forall k: Key ensures k in x <==> k in y {}
    assert x.Keys == y.Keys;
    forall k | k in x ensures x[k] == y[k] {
      assert Count(x, k) == Count(c, k) - Total(xs, k) && Count(y, k) == Count(c, k) - Total(ys, k);
    }
  }
}
