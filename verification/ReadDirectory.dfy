/** The kernel's side of a directory listing: one `ReadDir` or `ReadDirPlus` after the
    other, each going on from the last cookie of the one before. */
module DirectoryReading {
  import opened RefCounts
  import opened Statuses
  import opened FileDescriptors
  import opened FuseRequests
  import opened InodeCaches
  import opened Listings
  import opened PageAlignFileSystem

  /** The bytes of the listings the kernel accepted. */
  function Received(log: seq<Completion>): seq<Byte> {
    if log == [] then []
    else
      var last := log[|log| - 1];
      Received(log[..|log| - 1]) + if last.Accepted() && last.reply.BufReply? then last.reply.bytes else []
  }

  /** What the environment makes of the directory's entries, call by call: an entry that is
      met again may find another inode, at another address. */
  type Environment = nat -> seq<Visit>

  /** Nothing goes wrong anywhere in the directory. */
  ghost predicate GoesWell(visits: seq<Visit>, n: nat) {
    && |visits| == n + 1
    && (forall i | 0 <= i <= n ::
          visits[i].readdir.None? && (i < n ==> visits[i].child.Resolved? && visits[i].describe.failure.None?))
  }

  ghost predicate AlwaysGoesWell(env: Environment, n: nat) {
    forall c: nat :: GoesWell(env(c), n)
  }

  lemma {:induction false} PageBytesConcat(encode: Encoder, plus: bool, x: seq<Dirent>, i: seq<nat>,
                                           y: seq<Dirent>, j: seq<nat>)
    requires |x| == |i| && |y| == |j|
    ensures PageBytes(encode, plus, x + y, i + j) == PageBytes(encode, plus, x, i) + PageBytes(encode, plus, y, j)
    decreases |y|
  {
    if y == [] {
      assert x + y == x && i + j == i;
    } else {
      var last := |y| - 1;
      PageBytesConcat(encode, plus, x, i, y[..last], j[..last]);
      assert (x + y)[..|x| + last] == x + y[..last] && (i + j)[..|x| + last] == i + j[..last];
    }
  }

  lemma AddressesConcat(x: seq<Inode>, y: seq<Inode>)
    ensures Addresses(x + y) == Addresses(x) + Addresses(y)
  {}

  lemma {:induction false} KeysOfConcat(x: seq<Inode>, y: seq<Inode>)
    ensures KeysOf(x + y) == KeysOf(x) + KeysOf(y)
  {
    if x == [] {
      assert x + y == y;
    } else {
      assert (x + y)[1..] == x[1..] + y;
      KeysOfConcat(x[1..], y);
    }
  }

  lemma ShiftTwice(c0: Cache<Inode>, c1: Cache<Inode>, c2: Cache<Inode>, x: multiset<Key>, y: multiset<Key>)
    requires Shifted(c0, c1, x) && Shifted(c1, c2, y)
    ensures Shifted(c0, c2, x + y)
  {
    forall k: Key ensures Count(c2, k) == Count(c0, k) + (x + y)[k] && (k in c2 <==> k in c0 || (x + y)[k] > 0) {
      assert Count(c1, k) == Count(c0, k) + x[k] && Count(c2, k) == Count(c1, k) + y[k];
      assert (k in c1 <==> k in c0 || x[k] > 0) && (k in c2 <==> k in c1 || y[k] > 0);
    }
  }

  /** What the kernel holds after the pages so far. */
  ghost predicate Took(before: Cache<Inode>, c: Cache<Inode>, plus: bool, placed: seq<Inode>) {
    Shifted(before, c, if plus then KeysOf(placed) else multiset{})
  }

  lemma TookMore(before: Cache<Inode>, c: Cache<Inode>, c': Cache<Inode>, plus: bool, placed: seq<Inode>,
                 more: seq<Inode>)
    requires Took(before, c, plus, placed)
    requires if plus then Shifted(c, c', KeysOf(more)) else c' == c
    ensures Took(before, c', plus, placed + more)
  {
    if plus {
      ShiftTwice(before, c, c', KeysOf(placed), KeysOf(more));
      KeysOfConcat(placed, more);
    }
  }

  lemma StillRoom(before: Cache<Inode>, c: Cache<Inode>, plus: bool, placed: seq<Inode>, n: nat)
    requires Took(before, c, plus, placed) && |placed| <= n && Room(before, 2 * n)
    ensures Room(c, n)
  {
    forall k: Key ensures Count(c, k) + 2 * n + 2 < TWO_64 {
      KeysOfBounds(placed, k);
      assert Count(before, k) + 2 * (2 * n) + 2 < TWO_64;
      assert Count(c, k) == Count(before, k) + (if plus then KeysOf(placed) else multiset{})[k];
    }
  }

  /** The name of the entry resolved to the node when the call met it. */
  ghost predicate FoundIn(env: Environment, call: nat, position: nat, node: Inode) {
    position < |env(call)| && IsFor(node, env(call)[position])
  }

  /** Each node is what its entry's name resolved to in the call that placed it. */
  ghost predicate FoundBy(env: Environment, calls: seq<nat>, start: nat, placed: seq<Inode>) {
    |calls| == |placed| && forall i | 0 <= i < |placed| :: FoundIn(env, calls[i], start + i, placed[i])
  }

  /** What the reader has after some pages: the entries up to its cookie, and the nodes
      they name. */
  ghost predicate HasRead(entries: seq<Dirent>, start: nat, off: nat, listing: seq<Dirent>, placed: seq<Inode>,
                          calls: seq<nat>, env: Environment)
  {
    && start + |listing| <= |entries| && listing == entries[start..start + |listing|]
    && PositionOf(entries, off) == start + |listing|
    && |placed| == |listing| && FoundBy(env, calls, start, placed)
  }

  function Repeated(call: nat, n: nat): (calls: seq<nat>)
    ensures |calls| == n && forall i | 0 <= i < n :: calls[i] == call
  {
    seq(n, _ => call)
  }

  lemma FoundOn(env: Environment, calls: seq<nat>, start: nat, placed: seq<Inode>, call: nat, more: seq<Inode>)
    requires FoundBy(env, calls, start, placed)
    requires start + |placed| + |more| <= |env(call)| && Resolves(env(call), start + |placed|, more)
    ensures FoundBy(env, calls + Repeated(call, |more|), start, placed + more)
  {
    var all, callOf := placed + more, calls + Repeated(call, |more|);
    forall i | 0 <= i < |all| ensures FoundIn(env, callOf[i], start + i, all[i]) {
      if i < |placed| {
        assert FoundIn(env, calls[i], start + i, placed[i]);
      } else {
        assert callOf[i] == call;
        assert IsFor(more[i - |placed|], env(call)[start + |placed| + (i - |placed|)]);
      }
    }
  }

  lemma ReadsOn(entries: seq<Dirent>, start: nat, off: nat, listing: seq<Dirent>, placed: seq<Inode>, calls: seq<nat>,
                env: Environment, page: seq<Dirent>, call: nat, more: seq<Inode>)
    requires HasRead(entries, start, off, listing, placed, calls, env) && DistinctCookies(entries) && page != []
    requires page <= entries[PositionOf(entries, off)..] && |more| == |page|
    requires PositionOf(entries, off) + |more| <= |env(call)| && Resolves(env(call), PositionOf(entries, off), more)
    ensures HasRead(entries, start, page[|page| - 1].off, listing + page, placed + more,
                    calls + Repeated(call, |more|), env)
  {
    NextPagePosition(entries, off, page);
    FoundOn(env, calls, start, placed, call, more);
  }

  ghost predicate AllFit(entries: seq<Dirent>, sizes: Sizes, rooms: nat -> nat) {
    forall i, c: nat | 0 <= i < |entries| :: sizes(entries[i].name) <= rooms(c)
  }

  lemma ReadsAll(entries: seq<Dirent>, start: nat, off: nat, listing: seq<Dirent>, placed: seq<Inode>, calls: seq<nat>,
                 env: Environment, sizes: Sizes, rooms: nat -> nat, call: nat)
    requires HasRead(entries, start, off, listing, placed, calls, env) && AllFit(entries, sizes, rooms)
    requires Page(entries, off, sizes, rooms(call)) == []
    ensures listing == entries[start..]
  {
    EmptyPage(entries, off, sizes, rooms(call));
  }

  lemma HasReadNothing(entries: seq<Dirent>, first: nat, env: Environment)
    ensures HasRead(entries, PositionOf(entries, first), first, [], [], [], env)
  {
    PositionBound(entries, first);
  }

  lemma ReceivesOn(log: seq<Completion>, last: Completion)
    ensures Received(log + [last]) ==
      Received(log) + if last.Accepted() && last.reply.BufReply? then last.reply.bytes else []
  {
    assert (log + [last])[..|log|] == log;
  }

  /** Reading a whole directory: when nothing goes wrong and every page has room for any
      one entry, what the server sends in all is exactly the entries from the first
      cookie on, in order, none lost or repeated; `ReadDirPlus` leaves one reference for
      each, and `ReadDir` none. */
  method ReadWhole(fs: PageAlignFS, session: Session, directory: NodeId, stream: DirStream, first: nat, start: nat,
                   rooms: nat -> nat, plus: bool, env: Environment, encode: Encoder, sizes: Sizes, os: Os)
    returns (listing: seq<Dirent>, ghost placed: seq<Inode>, ghost calls: seq<nat>)
    requires fs.Valid() && GoodLibc(session.libc) && (directory.Pointer? ==> fs.Live(directory.inode))
    requires SizesOf(encode, plus, sizes) && Room(fs.cache.inodes, 2 * |stream.entries|)
    requires DistinctCookies(stream.entries) && AlwaysGoesWell(env, |stream.entries|)
    requires if first == 0 then start == 0
      else 0 < start <= |stream.entries| && stream.entries[start - 1].off == first
    requires AllFit(stream.entries, sizes, rooms)
    modifies session, stream, fs.cache, os
    ensures fs.Valid()
    ensures listing == stream.entries[start..]
    ensures |placed| == |listing| && FoundBy(env, calls, start, placed)
    ensures old(session.log) <= session.log
    ensures Received(session.log[|old(session.log)|..]) == PageBytes(encode, plus, listing, Addresses(placed))
    ensures Took(old(fs.cache.inodes), fs.cache.inodes, plus, placed)
  {
    ghost var before, log := fs.cache.inodes, session.log;
    PositionIs(stream.entries, first, start);
    HasReadNothing(stream.entries, first, env);
    ShiftedByNothing(before, before);
    listing, placed, calls := [], [], [];
    var off, call := first, 0;
    while true
      invariant fs.Valid() && (directory.Pointer? ==> fs.Live(directory.inode))
      invariant HasRead(stream.entries, start, off, listing, placed, calls, env)
      invariant Took(before, fs.cache.inodes, plus, placed)
      invariant log <= session.log
      invariant Received(session.log[|log|..]) == PageBytes(encode, plus, listing, Addresses(placed))
      decreases |stream.entries| - |listing|
    {
      assert GoesWell(env(call), |stream.entries|);
      StillRoom(before, fs.cache.inodes, plus, placed, |stream.entries|);
      ghost var more;
      var page;
      page, more := ReadPage(fs, session, call, directory, stream, rooms(call), off, plus, env(call), encode, sizes, os,
                             before, placed, log, listing);
      if page == [] {
        assert listing + page == listing && placed + more == placed;
        ReadsAll(stream.entries, start, off, listing, placed, calls, env, sizes, rooms, call);
        return;
      }
      ReadsOn(stream.entries, start, off, listing, placed, calls, env, page, call, more);
      listing, placed, calls := listing + page, placed + more, calls + Repeated(call, |more|);
      off, call := page[|page| - 1].off, call + 1;
    }
  }

  /** One call, and what the reader finds in the reply. */
  method ReadPage(fs: PageAlignFS, session: Session, id: ReqId, directory: NodeId, stream: DirStream, room: nat,
                  off: nat, plus: bool, visits: seq<Visit>, encode: Encoder, sizes: Sizes, os: Os,
                  ghost before: Cache<Inode>,
                  ghost placed: seq<Inode>, ghost log: seq<Completion>, ghost listing: seq<Dirent>)
    returns (page: seq<Dirent>, ghost more: seq<Inode>)
    requires fs.Valid() && GoodLibc(session.libc) && (directory.Pointer? ==> fs.Live(directory.inode))
    requires SizesOf(encode, plus, sizes) && Room(fs.cache.inodes, |stream.entries|)
    requires GoesWell(visits, |stream.entries|)
    requires Took(before, fs.cache.inodes, plus, placed) && |placed| == |listing|
    requires log <= session.log && Received(session.log[|log|..]) == PageBytes(encode, plus, listing, Addresses(placed))
    modifies session, stream, fs.cache, os
    ensures fs.Valid() && (directory.Pointer? ==> fs.Live(directory.inode))
    ensures page == Page(stream.entries, off, sizes, room) && |more| == |page|
    ensures PositionOf(stream.entries, off) + |more| <= |visits|
    ensures Resolves(visits, PositionOf(stream.entries, off), more)
    ensures PositionOf(stream.entries, off) <= |stream.entries|
    ensures page <= stream.entries[PositionOf(stream.entries, off)..]
    ensures Took(before, fs.cache.inodes, plus, placed + more)
    ensures log <= session.log
    ensures Received(session.log[|log|..]) == PageBytes(encode, plus, listing + page, Addresses(placed + more))
  {
    PageIsPrefix(stream.entries, off, sizes, room);
    page := Page(stream.entries, off, sizes, room);
    ghost var c, sent, bytes := fs.cache.inodes, session.log, [];
    more, bytes := Call(fs, session, id, directory, stream, room, off, plus, visits, encode, sizes, os);
    TookMore(before, c, fs.cache.inodes, plus, placed, more);
    ghost var last := session.log[|sent|];
    assert session.log[|log|..] == sent[|log|..] + [last];
    ReceivesOn(sent[|log|..], last);
    AddressesConcat(placed, more);
    PageBytesConcat(encode, plus, listing, Addresses(placed), page, Addresses(more));
  }

  /** `ReadDir` or `ReadDirPlus` when nothing goes wrong and the kernel takes the reply. */
  method Call(fs: PageAlignFS, session: Session, id: ReqId, directory: NodeId, stream: DirStream, room: nat,
              off: nat, plus: bool, visits: seq<Visit>, encode: Encoder, sizes: Sizes, os: Os)
    returns (ghost more: seq<Inode>, ghost bytes: seq<Byte>)
    requires fs.Valid() && GoodLibc(session.libc) && (directory.Pointer? ==> fs.Live(directory.inode))
    requires SizesOf(encode, plus, sizes) && Room(fs.cache.inodes, |stream.entries|)
    requires GoesWell(visits, |stream.entries|)
    modifies session, stream, fs.cache, os
    ensures fs.Valid()
    ensures session.log == old(session.log) + [Completion(id, BufReply(bytes), 0)]
    ensures IsPage(bytes, encode, plus, stream.entries, off, sizes, room, visits, more)
    ensures if plus then Shifted(old(fs.cache.inodes), fs.cache.inodes, KeysOf(more))
      else fs.cache.inodes == old(fs.cache.inodes)
  {
    EveryPageSmooth(visits, stream.entries, off, sizes, room);
    ghost var n := |session.log|;
    more := fs.ReadDir(session, id, directory, stream, room, off, plus, visits, encode, 0, 0, 0, os, sizes);
    bytes := session.log[n].reply.bytes;
    assert session.log == session.log[..n] + [session.log[n]];
  }
}
