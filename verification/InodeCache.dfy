/** `Inode` and `InodeCache`: a mutable map from (device, number) to counted inodes. */
module InodeCaches {
  import opened RefCounts
  import opened FileDescriptors

  /** The fields of an inode that never change once it is made.  Which object it is
      matters: the kernel is given its address. */
  class Inode {
    const key: Key
    const addr: nat
    const fd: nat

    constructor (key: Key, addr: nat, fd: nat)
      ensures this.key == key && this.addr == addr && this.fd == fd
    {
      this.key := key;
      this.addr := addr;
      this.fd := fd;
    }

    /** The destructor closes the descriptor. */
    method Destroy(os: Os)
      modifies os`closes
      ensures os.closes == old(os.closes) + [fd]
    {
      var owner := new FileDescriptor.Own(fd);
      owner.Destroy(os);
    }
  }

  ghost function SomeKey(c: Cache<Inode>): (k: Key)
    requires c != map[]
    ensures k in c
  {
    var k :| k in c;
    k
  }

  /** The descriptors of the cached inodes. */
  ghost function CachedFds(c: Cache<Inode>): multiset<int>
    decreases |c|
  {
    if c == map[] then multiset{}
    else
      var k := SomeKey(c);
      RemoveKey(c, k);
      multiset{c[k].node.fd} + CachedFds(c - {k})
  }

  lemma RemoveKey(c: Cache<Inode>, k: Key)
    requires k in c
    ensures |c - {k}| < |c| && (c - {k}).Keys == c.Keys - {k}
  {
    assert (c - {k}).Keys == c.Keys - {k};
    assert |(c - {k}).Keys| == |c.Keys| - 1;
  }

  lemma RemoveTwo(c: Cache<Inode>, j: Key, k: Key)
    ensures c - {j} - {k} == c - {k} - {j}
  {}

  lemma FdsUnfold(c: Cache<Inode>)
    requires c != map[]
    ensures CachedFds(c) == multiset{c[SomeKey(c)].node.fd} + CachedFds(c - {SomeKey(c)})
  {}

  lemma InEitherOrder(x: multiset<int>, y: multiset<int>, z: multiset<int>)
    ensures x + (y + z) == y + (x + z)
  {}

  lemma {:induction false} FdsWithout(c: Cache<Inode>, k: Key)
    requires k in c
    ensures CachedFds(c) == multiset{c[k].node.fd} + CachedFds(c - {k})
    decreases |c|
  {
    var j := SomeKey(c);
    FdsUnfold(c);
    if j != k {
      RemoveKey(c, j);
      RemoveKey(c, k);
      FdsWithout(c - {j}, k);
      FdsWithout(c - {k}, j);
      RemoveTwo(c, j, k);
      InEitherOrder(multiset{c[j].node.fd}, multiset{c[k].node.fd}, CachedFds(c - {j} - {k}));
    }
  }

  lemma {:induction false} FdsSame(c: Cache<Inode>, c': Cache<Inode>)
    requires c.Keys == c'.Keys && SameNodes(c, c')
    ensures CachedFds(c) == CachedFds(c')
    decreases |c|
  {
    if c != map[] {
      var k :| k in c;
      RemoveKey(c, k);
      RemoveKey(c', k);
      FdsSame(c - {k}, c' - {k});
      FdsWithout(c, k);
      FdsWithout(c', k);
    }
  }

  /** A new entry brings its inode's descriptor into the cache. */
  lemma FdsInsert(c: Cache<Inode>, k: Key, node: Inode)
    ensures CachedFds(RefCounts.Insert(c, k, node)) == CachedFds(c) + if k in c then multiset{} else multiset{node.fd}
  {
    var c' := RefCounts.Insert(c, k, node);
    if k in c {
      FdsSame(c, c');
    } else {
      FdsWithout(c', k);
      assert c' - {k} == c;
    }
  }

  /** An erased entry takes its own out. */
  lemma FdsUnref(c: Cache<Inode>, k: Key, n: uint64)
    requires RefCounts.Unref(c, k, n).Updated?
    ensures var c' := RefCounts.Unref(c, k, n).cache;
      CachedFds(c) == CachedFds(c') + if k in c' then multiset{} else multiset{c[k].node.fd}
  {
    var c' := RefCounts.Unref(c, k, n).cache;
    if k in c' {
      FdsSame(c, c');
    } else {
      FdsWithout(c, k);
    }
  }

  /** Every descriptor that has been closed, or that a cached inode has open. */
  ghost function Ledger(closes: seq<int>, c: Cache<Inode>): multiset<int> {
    multiset(closes) + CachedFds(c)
  }

  lemma LedgerUnref(closes: seq<int>, c: Cache<Inode>, closes': seq<int>, k: Key, n: uint64)
    requires RefCounts.Unref(c, k, n).Updated?
    requires closes' == closes + if k in RefCounts.Unref(c, k, n).cache then [] else [c[k].node.fd]
    ensures Ledger(closes', RefCounts.Unref(c, k, n).cache) == Ledger(closes, c)
  {
    FdsUnref(c, k, n);
  }

  lemma LedgerRef(closes: seq<int>, c: Cache<Inode>, k: Key, n: uint64)
    requires RefCounts.Ref(c, k, n).Updated?
    ensures Ledger(closes, RefCounts.Ref(c, k, n).cache) == Ledger(closes, c)
  {
    FdsSame(c, RefCounts.Ref(c, k, n).cache);
  }

  class InodeCache {
    var inodes: Cache<Inode>

    /** Every inode is cached under its own device and number. */
    ghost predicate Valid()
      reads this
    {
      forall k | k in inodes :: inodes[k].node.key == k
    }

    /** The object is cached; an object that is not has been destroyed, or was never
        taken over. */
    predicate Caches(inode: Inode)
      reads this
    {
      inode.key in inodes && inodes[inode.key].node == inode
    }

    constructor ()
      ensures inodes == map[]
    {
      inodes := map[];
    }

    /** Takes the inode over, or drops it when its key is already cached; the caller
        gets one reference to whichever inode is cached. */
    method Insert(inode: Inode, os: Os) returns (found: Inode)
      requires Valid()
      modifies this, os`closes
      ensures Valid() && Caches(found) && found.key == inode.key
      ensures inodes == RefCounts.Insert(old(inodes), inode.key, inode)
      ensures os.closes == old(os.closes) + if inode.key in old(inodes) then [inode.fd] else []
    {
      var key := inode.key;
      var isNew := key !in inodes;
      if isNew {
        inodes := inodes[key := Slot(0, inode)];
      }
      inodes := inodes[key := Slot(Wrap(inodes[key].refcnt + 1), inodes[key].node)];
      found := inodes[key].node;
      if !isNew {
        inode.Destroy(os); // the by-value argument goes out of scope
      }
    }

    /** False is the internal error for an inode that has no entry. */
    method Ref(inode: Inode, ntimes: uint64) returns (ok: bool)
      requires Valid()
      modifies this
      ensures Valid()
      ensures ok <==> RefCounts.Ref(old(inodes), inode.key, ntimes).Updated?
      ensures inodes == if ok then RefCounts.Ref(old(inodes), inode.key, ntimes).cache else old(inodes)
    {
      var key := inode.key;
      if key !in inodes { return false; }
      inodes := inodes[key := Slot(Wrap(inodes[key].refcnt + ntimes), inodes[key].node)];
      ok := true;
    }

    /** The source CHECKs that the count covers `ntimes`; the last reference destroys
        the cached inode. */
    method Unref(inode: Inode, ntimes: uint64, os: Os) returns (ok: bool)
      requires Valid() && (inode.key in inodes ==> ntimes <= inodes[inode.key].refcnt)
      modifies this, os`closes
      ensures Valid()
      ensures ok <==> RefCounts.Unref(old(inodes), inode.key, ntimes).Updated?
      ensures inodes == if ok then RefCounts.Unref(old(inodes), inode.key, ntimes).cache else old(inodes)
      ensures os.closes == old(os.closes) +
        if inode.key in old(inodes) && inode.key !in inodes then [old(inodes)[inode.key].node.fd] else []
    {
      var key := inode.key;
      if key !in inodes { return false; }
      var slot := inodes[key];
      inodes := inodes[key := Slot(slot.refcnt - ntimes, slot.node)];
      if inodes[key].refcnt == 0 {
        inodes := inodes - {key};
        slot.node.Destroy(os);
      }
      ok := true;
    }
  }
}
