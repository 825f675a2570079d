/** The handlers of `PageAlignFS` that move references. */
module PageAlignFileSystem {
  import opened Options
  import opened RefCounts
  import opened Statuses
  import opened FileDescriptors
  import opened FuseRequests
  import opened InodeCaches
  import opened Listings

  type Failure = st: Status | !st.Ok() witness Status(Internal, None)

  /** What opening a child and reading its attributes may come to. */
  datatype Child =
    | OpenFails(failure: Failure)
    | StatFails(fd: nat, failure: Failure)
    | Resolved(fd: nat, key: Key, addr: nat)

  /** What filling in an entry's parameters may come to: `probe` is the descriptor opened
      to ask for the generation, when that is not known yet. */
  datatype Description = Description(probe: Option<nat>, failure: Option<Failure>)

  function Probes(description: Description, withGeneration: bool): seq<int> {
    if withGeneration && description.probe.Some? then [description.probe.value] else []
  }

  /** The descriptors a child costs that no cached inode takes over. */
  function Leftover(c: Cache<Inode>, child: Child): seq<int> {
    match child
    case OpenFails(_) => []
    case StatFails(fd, _) => [fd]
    case Resolved(fd, key, _) => if key in c then [fd] else []
  }

  /** The descriptor that opening a child costs. */
  function Opens(child: Child): seq<int> {
    if child.OpenFails? then [] else [child.fd]
  }

  /** `CreateFuseEntryParam`: the descriptor for the generation is closed again, whether
      the call on it fails or not. */
  method CreateFuseEntryParam(description: Description, withGeneration: bool, os: Os) returns (st: Status)
    modifies os
    ensures st == if description.failure.None? then OK_STATUS else description.failure.value
    ensures os.opens == old(os.opens) + Probes(description, withGeneration)
    ensures os.closes == old(os.closes) + Probes(description, withGeneration)
  {
    if withGeneration && description.probe.Some? {
      os.opens := os.opens + [description.probe.value];
      var fd := new FileDescriptor.Own(description.probe.value);
      fd.Destroy(os);
    }
    st := if description.failure.None? then OK_STATUS else description.failure.value;
  }

  /** All that an entry closes, in order: a duplicate inode, the descriptor for the
      generation, and the inode itself when it does not stay. */
  function EntryCloses(c: Cache<Inode>, parent: Inode, child: Child, description: Description, ok: bool): seq<int> {
    match child
    case OpenFails(_) => []
    case StatFails(fd, _) => [fd]
    case Resolved(fd, key, _) =>
      (if key in c then [fd] else [])
      + (if key.dev == parent.key.dev then Probes(description, true) else [])
      + (if !ok && key !in c then [fd] else [])
  }

  /** All that an entry opens. */
  function EntryOpens(parent: Inode, child: Child, description: Description): seq<int> {
    Opens(child) +
    if child.Resolved? && child.key.dev == parent.key.dev then Probes(description, true) else []
  }

  /** An entry's descriptors balance: what it opens is closed, or stays with the inode it
      caches. */
  lemma EntryInBalance(c: Cache<Inode>, c': Cache<Inode>, parent: Inode, child: Child, description: Description,
                       ok: bool, closes: seq<int>, opens: seq<int>)
    requires if ok then Granted(c, c', child) else c' == c
    ensures Ledger(closes + EntryCloses(c, parent, child, description, ok), c') + multiset(opens) ==
      Ledger(closes, c) + multiset(opens + EntryOpens(parent, child, description))
  {
    if ok { GrantedFds(c, c', child); }
    EntrySums(c, CachedFds(c), CachedFds(c'), parent, child, description, ok);
    AddToBalance(closes, EntryCloses(c, parent, child, description, ok), CachedFds(c), CachedFds(c'),
                 opens, EntryOpens(parent, child, description));
  }

  lemma EntrySums(c: Cache<Inode>, fds: multiset<int>, fds': multiset<int>, parent: Inode, child: Child,
                  description: Description, ok: bool)
    requires ok ==> child.Resolved?
    requires fds' == fds + if ok && child.key !in c then multiset{child.fd} else multiset{}
    ensures multiset(EntryCloses(c, parent, child, description, ok)) + fds' ==
      fds + multiset(EntryOpens(parent, child, description))
  {
    if child.Resolved? {
      var probes := if child.key.dev == parent.key.dev then Probes(description, true) else [];
      if child.key in c || !ok {
        OpenedAndClosed(child.fd, probes, child.key in c);
      }
      assert multiset([child.fd as int] + probes) == multiset{child.fd} + multiset(probes);
    }
  }

  lemma OpenedAndClosed(fd: int, probes: seq<int>, first: bool)
    ensures multiset((if first then [fd] else []) + probes + (if first then [] else [fd])) ==
      multiset{fd} + multiset(probes)
  {}

  lemma AddToBalance(closes: seq<int>, more: seq<int>, fds: multiset<int>, fds': multiset<int>, opens: seq<int>,
                     added: seq<int>)
    requires multiset(more) + fds' == fds + multiset(added)
    ensures multiset(closes + more) + fds' + multiset(opens) == multiset(closes) + fds + multiset(opens + added)
  {
    forall x: int
      ensures (multiset(closes + more) + fds' + multiset(opens))[x] ==
        (multiset(closes) + fds + multiset(opens + added))[x]
    {
      assert (multiset(more) + fds')[x] == (fds + multiset(added))[x];
    }
  }

  lemma GrantedFds(c: Cache<Inode>, c': Cache<Inode>, child: Child)
    requires Granted(c, c', child)
    ensures CachedFds(c') == CachedFds(c) + if child.key in c then multiset{} else multiset{child.fd}
  {
    if child.key in c {
      assert c'.Keys == c.Keys;
      FdsSame(c, c');
    } else {
      FdsWithout(c', child.key);
      assert (c' - {child.key}).Keys == c.Keys;
      FdsSame(c, c' - {child.key});
    }
  }

  lemma ClosesInOrder(c: Cache<Inode>, parent: Inode, child: Child, describe: Description, ok: bool, closes: seq<int>,
                      found: seq<int>, after: seq<int>)
    requires child.Resolved? && found == closes + Leftover(c, child)
    requires var probes := if child.key.dev == parent.key.dev then Probes(describe, true) else [];
      after == (found + probes) + if ok || child.key in c then [] else [child.fd]
    ensures after == closes + EntryCloses(c, parent, child, describe, ok)
  {}

  datatype Due = Due(ledger: multiset<int>, opens: seq<int>)

  datatype NodeId =
    | RootId
    | Pointer(inode: Inode)

  /** `Inode::Create`: the descriptor is closed again when the stat call fails. */
  method CreateInode(child: Child, os: Os) returns (inode: Inode?, st: Status)
    modifies os
    ensures st == if child.Resolved? then OK_STATUS else child.failure
    ensures inode == null <==> !child.Resolved?
    ensures child.Resolved? ==>
      fresh(inode) && inode.key == child.key && inode.addr == child.addr && inode.fd == child.fd
    ensures os.closes == old(os.closes) + if child.StatFails? then [child.fd as int] else []
    ensures os.opens == old(os.opens) + Opens(child)
  {
    if child.OpenFails? { return null, child.failure; }
    os.opens := os.opens + [child.fd];
    var fd := new FileDescriptor.Own(child.fd);
    if child.StatFails? {
      fd.Destroy(os);
      return null, child.failure;
    }
    var number := fd.Release(); // moves into the inode
    inode := new Inode(child.key, child.addr, number);
    st := OK_STATUS;
  }

  class PageAlignFS {
    const root: Inode
    const cache: InodeCache

    /** Counts are positive as long as none has wrapped. */
    ghost predicate Valid()
      reads cache
    {
      cache.Valid() && Positive(cache.inodes) && !cache.Caches(root)
    }

    /** The objects a node id or a pointer in a handler may refer to. */
    ghost predicate Live(inode: Inode)
      reads cache
    {
      inode == root || cache.Caches(inode)
    }

    /** What was opened since some moment has been closed or is held by a cached inode;
        `due` is what was closed or held, and what had been opened, at that moment. */
    ghost predicate InBalance(os: Os, due: Due)
      reads cache, os
    {
      Ledger(os.closes, cache.inodes) + multiset(due.opens) == due.ledger + multiset(os.opens)
    }

    constructor (root: Inode)
      ensures this.root == root && Valid() && cache.inodes == map[] && fresh(cache)
    {
      this.root := root;
      cache := new InodeCache();
    }

    function NodeOf(id: NodeId): Inode {
      if id.RootId? then root else id.inode
    }

    method GetInode(id: NodeId) returns (inode: Inode)
      requires id.Pointer? ==> Live(id.inode)
      ensures Live(inode) && inode == NodeOf(id)
    {
      inode := if id.RootId? then root else id.inode;
    }

    method FindOrCreateInode(parent: Inode, child: Child, os: Os) returns (node: Inode?, st: Status)
      requires Valid() && Live(parent)
      requires child.Resolved? ==> Count(cache.inodes, child.key) + 1 < TWO_64
      modifies cache, os
      ensures Valid()
      ensures st == if child.Resolved? then OK_STATUS else child.failure
      ensures node != null <==> child.Resolved?
      ensures !child.Resolved? ==> cache.inodes == old(cache.inodes)
      ensures child.Resolved? ==>
        && cache.Caches(node) && node.key == child.key
        && cache.inodes == RefCounts.Insert(old(cache.inodes), child.key, node)
      ensures child.Resolved? && child.key !in old(cache.inodes) ==>
        fresh(node) && node.addr == child.addr && node.fd == child.fd
      ensures os.closes == old(os.closes) + Leftover(old(cache.inodes), child)
      ensures os.opens == old(os.opens) + Opens(child)
    {
      var inode;
      inode, st := CreateInode(child, os);
      if inode == null { return null, st; }
      node := cache.Insert(inode, os);
    }

    /** The deleter of the shared pointers `Insert` hands out, and the cleanup guards:
        one reference of the balance goes. */
    method DropNode(node: Inode, os: Os, ghost before: Cache<Inode>, ghost more: multiset<Key>)
      requires Valid() && cache.Caches(node)
      requires Positive(before) && Shifted(before, cache.inodes, more + multiset{node.key})
      modifies cache, os`closes
      ensures Valid() && Shifted(before, cache.inodes, more)
      ensures RefCounts.Unref(old(cache.inodes), node.key, 1) == Updated(cache.inodes)
      ensures os.closes == old(os.closes) + if node.key in cache.inodes then [] else [node.fd]
    {
      ShiftUnref(before, cache.inodes, more + multiset{node.key}, node.key);
      assert more + multiset{node.key} - multiset{node.key} == more;
      var ok := cache.Unref(node, 1, os);
      ShiftedStaysPositive(before, cache.inodes, more);
    }

    /** The reference taken on behalf of the kernel.  The entry is there, so the source's
        error branch is dead. */
    method RefNode(node: Inode, ghost before: Cache<Inode>, ghost more: multiset<Key>)
      requires Valid() && cache.Caches(node)
      requires Positive(before) && Shifted(before, cache.inodes, more)
      requires Count(before, node.key) + more[node.key] + 1 < TWO_64
      modifies cache
      ensures Valid() && cache.Caches(node) && Shifted(before, cache.inodes, more + multiset{node.key})
      ensures RefCounts.Ref(old(cache.inodes), node.key, 1) == Updated(cache.inodes)
    {
      ShiftRef(before, cache.inodes, more, node.key);
      var ok := cache.Ref(node, 1);
      ShiftedStaysPositive(before, cache.inodes, more + multiset{node.key});
    }

    /** The tail of `ReplyWithLookup` and `ReplyWithCreate`, which differ in the reply
        they send: the kernel's reference is taken, the reply goes out, and the
        reference is given back when the reply is refused. */
    method GrantAndReply(req: FuseRequest, session: Session, node: Inode, file: Option<int>, rc: ReplyResult, os: Os,
                         ghost before: Cache<Inode>)
      returns (st: Status)
      requires Valid() && cache.Caches(node) && GoodLibc(session.libc)
      requires Positive(before) && Shifted(before, cache.inodes, multiset{node.key})
      requires Count(before, node.key) + 2 < TWO_64
      modifies req, session, os`closes, cache
      ensures Valid()
      ensures st == ReplyStatus(session.libc, old(req.req), rc) && (st.Ok() <==> old(req.req).None? || rc == 0)
      ensures Shifted(before, cache.inodes, if st.Ok() then multiset{node.key} else multiset{})
      ensures st.Ok() ==> cache.Caches(node)
      ensures req.req == None
      ensures session.log == old(session.log) + Sent(old(req.req), EntryOrCreate(node.addr, file), rc)
      ensures os.closes == old(os.closes) + if node.key in cache.inodes then [] else [node.fd]
    {
      st := RefAndSend(req, session, node, file, rc, before);
      if !st.Ok() {
        DropBoth(node, os, before);
      } else {
        DropNode(node, os, before, multiset{node.key}); // the shared pointer
      }
    }

    method RefAndSend(req: FuseRequest, session: Session, node: Inode, file: Option<int>, rc: ReplyResult,
                      ghost before: Cache<Inode>)
      returns (st: Status)
      requires Valid() && cache.Caches(node) && GoodLibc(session.libc)
      requires Positive(before) && Shifted(before, cache.inodes, multiset{node.key})
      requires Count(before, node.key) + 2 < TWO_64
      modifies req, session, cache
      ensures Valid() && cache.Caches(node) && Shifted(before, cache.inodes, multiset{node.key} + multiset{node.key})
      ensures st == ReplyStatus(session.libc, old(req.req), rc) && (st.Ok() <==> old(req.req).None? || rc == 0)
      ensures req.req == None
      ensures session.log == old(session.log) + Sent(old(req.req), EntryOrCreate(node.addr, file), rc)
    {
      RefNode(node, before, multiset{node.key});
      st := req.Reply(session, EntryOrCreate(node.addr, file), rc);
      ErrnoStatusOk(session.libc, 0 - rc);
    }

    /** The cleanup guard's reference, then the shared pointer's. */
    method DropBoth(node: Inode, os: Os, ghost before: Cache<Inode>)
      requires Valid() && cache.Caches(node)
      requires Positive(before) && Shifted(before, cache.inodes, multiset{node.key} + multiset{node.key})
      modifies cache, os`closes
      ensures Valid() && Shifted(before, cache.inodes, multiset{})
      ensures os.closes == old(os.closes) + if node.key in cache.inodes then [] else [node.fd]
    {
      DropNode(node, os, before, multiset{node.key});
      assert multiset{} + multiset{node.key} == multiset{node.key};
      DropNode(node, os, before, multiset{});
    }

    /** `ReplyWithLookup`, and `ReplyWithCreate` when there is an open file: whatever
        fails, the cache is as it was; otherwise it holds one reference more. */
    method ReplyWithEntry(req: FuseRequest, session: Session, parent: Inode, child: Child, describe: Description,
                          file: Option<int>, rc: ReplyResult, os: Os)
      returns (st: Status, ino: nat)
      requires Valid() && Live(parent) && GoodLibc(session.libc)
      requires child.Resolved? ==> Count(cache.inodes, child.key) + 2 < TWO_64
      modifies req, session, cache, os
      ensures Valid()
      ensures st == (match EntryFailure(parent, child, describe)
                     case Some(failure) => failure
                     case None => ReplyStatus(session.libc, old(req.req), rc))
      ensures st.Ok() <==> EntryFailure(parent, child, describe).None? && (old(req.req).None? || rc == 0)
      ensures child.Resolved? ==> ino == EntryIno(old(cache.inodes), child)
      ensures !st.Ok() ==> cache.inodes == old(cache.inodes)
      ensures st.Ok() ==> Granted(old(cache.inodes), cache.inodes, child)
      ensures req.req == if EntryFailure(parent, child, describe).None? then None else old(req.req)
      ensures session.log == old(session.log) +
        if EntryFailure(parent, child, describe).None? then Sent(old(req.req), EntryOrCreate(ino, file), rc) else []
      ensures os.closes == old(os.closes) + EntryCloses(old(cache.inodes), parent, child, describe, st.Ok())
      ensures os.opens == old(os.opens) + EntryOpens(parent, child, describe)
    {
      ghost var before := cache.inodes;
      var node;
      ino := 0;
      node, st := FindOrCreateInode(parent, child, os);
      if node == null { return; }
      Balanced(before, cache.inodes, child.key, node);
      ghost var found := os.closes;
      ino := node.addr;
      st := DescribeChild(parent, node, describe, os);
      if !st.Ok() {
        GiveUp(node, os, before);
      } else {
        st := GrantAndReply(req, session, node, file, rc, os, before);
        if !st.Ok() { ShiftedByNothing(before, cache.inodes); }
      }
      ClosesInOrder(before, parent, child, describe, st.Ok(), old(os.closes), found, os.closes);
    }

    /** The device check, then the entry's parameters. */
    method DescribeChild(parent: Inode, node: Inode, describe: Description, os: Os) returns (st: Status)
      modifies os
      ensures st == if node.key.dev != parent.key.dev then Status(FailedPrecondition, None)
        else if describe.failure.None? then OK_STATUS else describe.failure.value
      ensures os.closes == old(os.closes) + if node.key.dev == parent.key.dev then Probes(describe, true) else []
      ensures os.opens == old(os.opens) + if node.key.dev == parent.key.dev then Probes(describe, true) else []
    {
      if parent.key.dev != node.key.dev { return Status(FailedPrecondition, None); }
      st := CreateFuseEntryParam(describe, true, os);
    }

    /** An early return: only the shared pointer is to be dropped. */
    method GiveUp(node: Inode, os: Os, ghost before: Cache<Inode>)
      requires Valid() && cache.Caches(node)
      requires Positive(before) && Shifted(before, cache.inodes, multiset{node.key})
      modifies cache, os`closes
      ensures Valid() && cache.inodes == before
      ensures os.closes == old(os.closes) + if node.key in before then [] else [node.fd]
    {
      assert multiset{} + multiset{node.key} == multiset{node.key};
      DropNode(node, os, before, multiset{});
      ShiftedByNothing(before, cache.inodes);
    }

    /** `Lookup` through its failure-only wrapper.  When nothing goes wrong the kernel is
        sent the entry, and if it takes it the child has one reference more.  Otherwise it
        is sent the errno of what went wrong - 16 is EBUSY, for another device - and the
        cache is as it was.  Every descriptor opened is closed or held by a cached inode. */
    method Lookup(session: Session, id: ReqId, parent: NodeId, child: Child, describe: Description,
                  rc: ReplyResult, wrapperRc: ReplyResult, destructorRc: ReplyResult, os: Os)
      requires Valid() && GoodLibc(session.libc) && (parent.Pointer? ==> Live(parent.inode))
      requires child.Resolved? ==> Count(cache.inodes, child.key) + 2 < TWO_64
      modifies session, cache, os
      ensures Valid() && OneMore(old(session.log), session.log, id)
      ensures var directory := if parent.RootId? then root else parent.inode;
        session.log[|old(session.log)|] ==
          if !child.Resolved? then Completion(id, ErrReply(FailureErrno(child.failure)), wrapperRc)
          else if child.key.dev != directory.key.dev then Completion(id, ErrReply(16), wrapperRc)
          else if describe.failure.Some? then Completion(id, ErrReply(FailureErrno(describe.failure.value)), wrapperRc)
          else if child.key in old(cache.inodes)
          then Completion(id, EntryReply(old(cache.inodes)[child.key].node.addr), rc)
          else Completion(id, EntryReply(child.addr), rc)
      ensures var last := session.log[|old(session.log)|];
        if last.Accepted() && last.reply.EntryReply? then
          && child.Resolved? && Shifted(old(cache.inodes), cache.inodes, multiset{child.key})
          && child.key in cache.inodes && last.reply.ino == cache.inodes[child.key].node.addr
        else cache.inodes == old(cache.inodes)
      ensures Ledger(os.closes, cache.inodes) + multiset(old(os.opens)) ==
        old(Ledger(os.closes, cache.inodes)) + multiset(os.opens)
      ensures os.opens == old(os.opens) + EntryOpens(NodeOf(parent), child, describe)
    {
      var inode := GetInode(parent);
      var req := new FuseRequest(id);
      var ok := AnswerEntry(req, session, id, inode, child, describe, rc, wrapperRc, destructorRc, os);
      EntryInBalance(old(cache.inodes), cache.inodes, inode, child, describe, ok, old(os.closes), old(os.opens));
    }

    /** The handler's work and what the wrapper makes of it. */
    method AnswerEntry(req: FuseRequest, session: Session, id: ReqId, directory: Inode, child: Child,
                       describe: Description, rc: ReplyResult, wrapperRc: ReplyResult,
                       destructorRc: ReplyResult, os: Os)
      returns (ok: bool)
      requires Valid() && GoodLibc(session.libc) && Live(directory) && req.req == Some(id)
      requires child.Resolved? ==> Count(cache.inodes, child.key) + 2 < TWO_64
      modifies req, session, cache, os
      ensures Valid() && (ok <==> EntryFailure(directory, child, describe).None? && rc == 0)
      ensures if ok then Granted(old(cache.inodes), cache.inodes, child) else cache.inodes == old(cache.inodes)
      ensures session.log == old(session.log) +
        [match EntryFailure(directory, child, describe)
         case Some(failure) => Completion(id, ErrReply(FailureErrno(failure)), wrapperRc)
         case None => Completion(id, EntryReply(EntryIno(old(cache.inodes), child)), rc)]
      ensures os.closes == old(os.closes) + EntryCloses(old(cache.inodes), directory, child, describe, ok)
      ensures os.opens == old(os.opens) + EntryOpens(directory, child, describe)
    {
      var st, ino := ReplyWithEntry(req, session, directory, child, describe, None, rc, os);
      ok := st.Ok();
      req.ReplyFailureAndLogIfNotOk(session, st, wrapperRc);
      req.Destroy(session, destructorRc);
    }

    /** `Create` through its wrapper: the same, and the file it opened is the kernel's
        exactly when the entry is, and is closed otherwise. */
    method Create(session: Session, id: ReqId, parent: NodeId, opens: Option<Failure>, fh: nat, child: Child,
                  describe: Description, rc: ReplyResult, wrapperRc: ReplyResult, destructorRc: ReplyResult, os: Os)
      requires Valid() && GoodLibc(session.libc) && (parent.Pointer? ==> Live(parent.inode))
      requires child.Resolved? ==> Count(cache.inodes, child.key) + 2 < TWO_64
      modifies session, cache, os
      ensures Valid() && OneMore(old(session.log), session.log, id)
      ensures var directory := if parent.RootId? then root else parent.inode;
        session.log[|old(session.log)|] ==
          if opens.Some? then Completion(id, ErrReply(FailureErrno(opens.value)), wrapperRc)
          else if !child.Resolved? then Completion(id, ErrReply(FailureErrno(child.failure)), wrapperRc)
          else if child.key.dev != directory.key.dev then Completion(id, ErrReply(16), wrapperRc)
          else if describe.failure.Some? then Completion(id, ErrReply(FailureErrno(describe.failure.value)), wrapperRc)
          else if child.key in old(cache.inodes)
          then Completion(id, CreateReply(old(cache.inodes)[child.key].node.addr, fh), rc)
          else Completion(id, CreateReply(child.addr, fh), rc)
      ensures var last := session.log[|old(session.log)|];
        if last.Accepted() && last.reply.CreateReply? then
          && child.Resolved? && Shifted(old(cache.inodes), cache.inodes, multiset{child.key})
          && child.key in cache.inodes && last.reply.ino == cache.inodes[child.key].node.addr
          && os.closes == old(os.closes) + EntryCloses(old(cache.inodes), NodeOf(parent), child, describe, true)
        else
          && cache.inodes == old(cache.inodes)
          && os.closes == old(os.closes) + if opens.Some? then [] else
               (EntryCloses(old(cache.inodes), NodeOf(parent), child, describe, false) + [fh as int])
      ensures os.opens == old(os.opens) + if opens.Some? then [] else [fh] + EntryOpens(NodeOf(parent), child, describe)
    {
      var inode := GetInode(parent);
      var req := new FuseRequest(id);
      var st, ino;
      if opens.Some? {
        st := opens.value;
      } else {
        st, ino := CreateOpened(req, session, inode, fh, child, describe, rc, os);
      }
      req.ReplyFailureAndLogIfNotOk(session, st, wrapperRc);
      req.Destroy(session, destructorRc);
    }

    /** `Create` once its file is open: the descriptor is released to the kernel with the
        reply, or closed. */
    method CreateOpened(req: FuseRequest, session: Session, directory: Inode, fh: nat, child: Child,
                        describe: Description, rc: ReplyResult, os: Os)
      returns (st: Status, ino: nat)
      requires Valid() && Live(directory) && GoodLibc(session.libc) && req.req.Some?
      requires child.Resolved? ==> Count(cache.inodes, child.key) + 2 < TWO_64
      modifies req, session, cache, os
      ensures Valid()
      ensures st.Ok() <==> EntryFailure(directory, child, describe).None? && rc == 0
      ensures EntryFailure(directory, child, describe).Some? ==> st == EntryFailure(directory, child, describe).value
      ensures child.Resolved? ==> ino == EntryIno(old(cache.inodes), child)
      ensures if st.Ok() then Granted(old(cache.inodes), cache.inodes, child) else cache.inodes == old(cache.inodes)
      ensures req.req == if EntryFailure(directory, child, describe).None? then None else old(req.req)
      ensures session.log == old(session.log) +
        if EntryFailure(directory, child, describe).None? then Sent(old(req.req), CreateReply(ino, fh), rc) else []
      ensures os.closes == old(os.closes) + EntryCloses(old(cache.inodes), directory, child, describe, st.Ok())
        + if st.Ok() then [] else [fh]
      ensures os.opens == old(os.opens) + ([fh] + EntryOpens(directory, child, describe))
    {
      os.opens := os.opens + [fh];
      var fd := new FileDescriptor.Own(fh);
      st, ino := ReplyWithEntry(req, session, directory, child, describe, Some(fh), rc, os);
      if st.Ok() {
        var released := fd.Release();
      } else {
        fd.Destroy(os);
      }
    }

    /** What the kernel may forget: nodes it holds, with counts that do not exceed what
        it holds - never the root, which is not in the cache. */
    ghost predicate MayForget(forgets: seq<(NodeId, uint64)>)
      reads cache
    {
      && (forall i | 0 <= i < |forgets| :: forgets[i].0.Pointer? && cache.Caches(forgets[i].0.inode))
      && Covered(cache.inodes, Keys(forgets))
    }

    /** The last reference closes the inode's descriptor, once. */
    method Forget(id: NodeId, nlookup: uint64, os: Os) returns (ok: bool)
      requires Valid() && MayForget([(id, nlookup)])
      modifies cache, os`closes
      ensures Valid() && ok && cache.inodes == ForgetAll(old(cache.inodes), Keys([(id, nlookup)]))
      ensures os.closes == old(os.closes) +
        if nlookup == old(cache.inodes)[id.inode.key].refcnt then [id.inode.fd] else []
    {
      assert [(id, nlookup)][0].0.Pointer?;
      CoveredStep(cache.inodes, Keys([(id, nlookup)]));
      assert Total(Keys([(id, nlookup)]), id.inode.key) <= Count(cache.inodes, id.inode.key);
      var inode := GetInode(id);
      ok := cache.Unref(inode, nlookup, os);
    }

    /** The batch equals the single forgets in order, and every node in it is still
        live when its turn comes.  What it closes is the descriptors of the inodes it
        erases, each once, in the order in which they are erased. */
    method ForgetMulti(forgets: seq<(NodeId, uint64)>, os: Os) returns (ok: bool)
      requires Valid() && MayForget(forgets)
      modifies cache, os`closes
      ensures Valid() && ok && cache.inodes == ForgetAll(old(cache.inodes), Keys(forgets))
      ensures os.closes == old(os.closes) + ErasedFds(old(cache.inodes), Keys(forgets))
      ensures Ledger(os.closes, cache.inodes) == old(Ledger(os.closes, cache.inodes))
    {
      ok := true;
      ErasedFdsBalance(cache.inodes, Keys(forgets));
      for i := 0 to |forgets|
        invariant Valid() && ok && MayForget(forgets[i..])
        invariant ForgetAll(cache.inodes, Keys(forgets[i..])) == ForgetAll(old(cache.inodes), Keys(forgets))
        invariant os.closes + ErasedFds(cache.inodes, Keys(forgets[i..])) ==
          old(os.closes) + ErasedFds(old(cache.inodes), Keys(forgets))
      {
        ok := ForgetFirst(forgets[i..], os);
        assert forgets[i..][1..] == forgets[i + 1..];
        if !ok { return; }
      }
      assert forgets[|forgets|..] == [];
    }

    /** One round of the loop. */
    method ForgetFirst(forgets: seq<(NodeId, uint64)>, os: Os) returns (ok: bool)
      requires Valid() && MayForget(forgets) && forgets != []
      modifies cache, os`closes
      ensures Valid() && ok && MayForget(forgets[1..])
      ensures ForgetAll(cache.inodes, Keys(forgets[1..])) == ForgetAll(old(cache.inodes), Keys(forgets))
      ensures os.closes + ErasedFds(cache.inodes, Keys(forgets[1..])) ==
        old(os.closes) + ErasedFds(old(cache.inodes), Keys(forgets))
    {
      ghost var batch := Keys(forgets);
      assert Keys(forgets[1..]) == batch[1..];
      CoveredStep(cache.inodes, batch);
      assert Total(batch, batch[0].0) <= Count(cache.inodes, batch[0].0);
      StillCached(cache.inodes, forgets);
      var inode := GetInode(forgets[0].0);
      ghost var c, closes := cache.inodes, os.closes;
      ok := cache.Unref(inode, forgets[0].1, os);
      FirstErased(c, batch, closes, os.closes, cache.inodes);
    }

    // ---- Directories

    ghost predicate HeldAt(inode: Inode, c: Cache<Inode>) {
      inode == root || (inode.key in c && c[inode.key].node == inode)
    }

    /** One iteration over an entry: its inode is found or created, described and put
        into the buffer.  With `plus` a placed entry leaves two references behind, the
        kernel's and the one in the handler's vector; otherwise nothing stays. */
    method VisitEntry(dirs: FuseDirsBuilder, directory: Inode, entry: Dirent, visit: Visit, encode: Encoder, os: Os,
                      ghost before: Cache<Inode>, ghost more: multiset<Key>, ghost due: Due)
      returns (node: Inode?, st: Status, added: bool)
      requires Valid() && dirs.Valid() && Live(directory) && InBalance(os, due)
      requires Positive(before) && Shifted(before, cache.inodes, more)
      requires visit.child.Resolved? ==> Count(before, visit.child.key) + more[visit.child.key] + 2 < TWO_64
      modifies dirs, cache, os
      ensures Valid() && dirs.Valid() && SameNodes(old(cache.inodes), cache.inodes)
      ensures st == VisitStatus(visit.(readdir := None), false)
      ensures added ==> node != null && visit.child.Resolved? && node.key == visit.child.key
      ensures added <==>
        (st.Ok() && node != null
         && |old(dirs.buf)| + |encode(dirs.plus, entry.name, node.addr, entry.off)| <= dirs.maxsize)
      ensures st.Ok() ==> node != null
      ensures dirs.buf ==
        if added then old(dirs.buf) + encode(dirs.plus, entry.name, node.addr, entry.off) else old(dirs.buf)
      ensures if added && dirs.plus
        then cache.Caches(node) && Shifted(before, cache.inodes, more + multiset{node.key} + multiset{node.key})
        else Shifted(before, cache.inodes, more)
      ensures InBalance(os, due)
    {
      added := false;
      node, st := HoldNode(directory, visit.child, os, before, more, due);
      if node == null { return; }
      ghost var held := cache.inodes;
      st := DescribeInBalance(visit.describe, dirs.plus, os, due);
      if st.Ok() {
        added := dirs.AddDirEntry(encode, entry.name, node.addr, entry.off);
      }
      Settle(node, added && dirs.plus, os, before, more, due);
      SameThroughout(old(cache.inodes), held, cache.inodes);
    }

    /** `FindOrCreateInode`, for what a listing needs to know of it. */
    method EnterNode(directory: Inode, child: Child, os: Os, ghost due: Due) returns (node: Inode?, st: Status)
      requires Valid() && Live(directory) && InBalance(os, due)
      requires child.Resolved? ==> Count(cache.inodes, child.key) + 1 < TWO_64
      modifies cache, os
      ensures Valid() && (node != null <==> child.Resolved?)
      ensures st == if child.Resolved? then OK_STATUS else child.failure
      ensures node == null ==> cache.inodes == old(cache.inodes)
      ensures node != null ==>
        && cache.Caches(node) && node.key == child.key
        && cache.inodes == RefCounts.Insert(old(cache.inodes), child.key, node)
      ensures InBalance(os, due)
    {
      node, st := FindOrCreateInode(directory, child, os);
      LedgerFindOrCreate(old(os.closes), old(cache.inodes), os.closes, cache.inodes, child, node);
      StillInBalance(old(Ledger(os.closes, cache.inodes)), old(os.opens), Opens(child), due);
    }

    /** `CreateFuseEntryParam`, for what a listing needs to know of it. */
    method DescribeInBalance(description: Description, withGeneration: bool, os: Os, ghost due: Due)
      returns (st: Status)
      requires InBalance(os, due)
      modifies os
      ensures InBalance(os, due)
      ensures st == if description.failure.None? then OK_STATUS else description.failure.value
    {
      st := CreateFuseEntryParam(description, withGeneration, os);
      ProbeInBalance(old(os.closes), cache.inodes, old(os.opens), Probes(description, withGeneration), due);
    }

    method HoldNode(directory: Inode, child: Child, os: Os, ghost before: Cache<Inode>, ghost more: multiset<Key>,
                    ghost due: Due)
      returns (node: Inode?, st: Status)
      requires Valid() && Live(directory) && InBalance(os, due)
      requires Positive(before) && Shifted(before, cache.inodes, more)
      requires child.Resolved? ==> Count(before, child.key) + more[child.key] + 1 < TWO_64
      modifies cache, os
      ensures Valid() && (node != null <==> child.Resolved?)
      ensures st == if child.Resolved? then OK_STATUS else child.failure
      ensures Within(old(cache.inodes), cache.inodes)
      ensures node == null ==> Shifted(before, cache.inodes, more)
      ensures node != null ==>
        cache.Caches(node) && node.key == child.key && Shifted(before, cache.inodes, more + multiset{node.key})
      ensures InBalance(os, due)
    {
      node, st := EnterNode(directory, child, os, due);
      if node != null {
        ShiftInsert(before, old(cache.inodes), more, node.key, node);
      }
    }

    /** `DropNode`, for what a listing needs to know of it. */
    method DropHeld(node: Inode, os: Os, ghost before: Cache<Inode>, ghost more: multiset<Key>, ghost due: Due)
      requires Valid() && cache.Caches(node) && InBalance(os, due)
      requires Positive(before) && Shifted(before, cache.inodes, more + multiset{node.key})
      modifies cache, os`closes
      ensures Valid() && Shifted(before, cache.inodes, more) && Within(cache.inodes, old(cache.inodes))
      ensures InBalance(os, due)
    {
      DropNode(node, os, before, more);
      LedgerUnref(old(os.closes), old(cache.inodes), os.closes, node.key, 1);
    }

    /** The end of an iteration: the kernel's reference is taken and the handle kept, or
        the handle is dropped. */
    method Settle(node: Inode, keep: bool, os: Os, ghost before: Cache<Inode>, ghost more: multiset<Key>,
                  ghost due: Due)
      requires Valid() && cache.Caches(node) && InBalance(os, due)
      requires Positive(before) && Shifted(before, cache.inodes, more + multiset{node.key})
      requires Count(before, node.key) + more[node.key] + 2 < TWO_64
      modifies cache, os`closes
      ensures Valid() && SameNodes(old(cache.inodes), cache.inodes)
      ensures keep ==>
        cache.Caches(node) && Shifted(before, cache.inodes, more + multiset{node.key} + multiset{node.key})
      ensures !keep ==> Shifted(before, cache.inodes, more)
      ensures InBalance(os, due)
    {
      if keep {
        RefNode(node, before, more + multiset{node.key});
        LedgerRef(os.closes, old(cache.inodes), node.key, 1);
      } else {
        DropHeld(node, os, before, more, due);
      }
    }

    /** The loop of the cleanup guard, and the vector's destructor: one reference per
        element goes. */
    method DropAll(nodes: seq<Inode>, os: Os, ghost before: Cache<Inode>, ghost more: multiset<Key>, ghost due: Due)
      requires Valid() && AllCached(cache.inodes, nodes) && InBalance(os, due)
      requires Positive(before) && Shifted(before, cache.inodes, more + KeysOf(nodes))
      modifies cache, os`closes
      ensures Valid() && Shifted(before, cache.inodes, more) && Within(cache.inodes, old(cache.inodes))
      ensures InBalance(os, due)
    {
      for i := 0 to |nodes|
        invariant Valid() && AllCached(cache.inodes, nodes[i..]) && Within(cache.inodes, old(cache.inodes))
        invariant Shifted(before, cache.inodes, more + KeysOf(nodes[i..]))
        invariant InBalance(os, due)
      {
        assert nodes[i..][0] == nodes[i] && nodes[i..][1..] == nodes[i + 1..];
        ghost var rest := more + KeysOf(nodes[i + 1..]);
        assert more + KeysOf(nodes[i..]) == rest + multiset{nodes[i].key};
        ghost var c := cache.inodes;
        DropHeld(nodes[i], os, before, rest, due);
        OthersStayCached(before, c, cache.inodes, nodes[i..], rest);
      }
      assert nodes[|nodes|..] == [];
      assert more + KeysOf([]) == more;
    }

    /** Null when the entry did not find its place in the buffer. */
    method PlaceEntry(dirs: FuseDirsBuilder, directory: Inode, entry: Dirent, visit: Visit, encode: Encoder, os: Os,
                      nodes: seq<Inode>, ghost placed: seq<Inode>, ghost before: Cache<Inode>, ghost rest: seq<Dirent>,
                      ghost sizes: Sizes, ghost due: Due)
      returns (node: Inode?, st: Status, nodes': seq<Inode>)
      requires Valid() && dirs.Valid() && Live(directory) && Positive(before) && InBalance(os, due)
      requires Kept(before, cache.inodes, nodes) && Buffered(dirs.buf, encode, dirs.plus, rest, placed)
      requires nodes == (if dirs.plus then placed else []) && |placed| < |rest| && entry == rest[|placed|]
      requires SizesOf(encode, dirs.plus, sizes) && Room(before, |rest|) && visit.readdir.None?
      modifies dirs, cache, os
      ensures Valid() && dirs.Valid() && Kept(before, cache.inodes, nodes')
      ensures Buffered(dirs.buf, encode, dirs.plus, rest, if node == null then placed else placed + [node])
      ensures st == VisitStatus(visit, false)
      ensures node != null ==> st.Ok() && IsFor(node, visit)
      ensures nodes' == if node != null && dirs.plus then nodes + [node] else nodes
      ensures st.Ok() && node == null ==> |dirs.buf| + sizes(entry.name) > dirs.maxsize
      ensures InBalance(os, due)
    {
      ghost var c := cache.inodes;
      RoomForTwo(before, nodes, |rest|);
      var added;
      node, st, added := VisitEntry(dirs, directory, entry, visit, encode, os, before, KeysOf(nodes) + KeysOf(nodes),
                                    due);
      nodes' := nodes;
      if dirs.plus && added {
        KeptOneMore(before, c, cache.inodes, nodes, node);
        nodes' := nodes + [node];
      } else {
        KeptCached(before, c, cache.inodes, nodes, KeysOf(nodes) + KeysOf(nodes));
      }
      if added {
        BufferedOneMore(old(dirs.buf), encode, dirs.plus, rest, placed, node);
      } else {
        node := null;
      }
    }

    /** What was live before the listing began stays so while it runs. */
    lemma DirectoryStays(directory: Inode, before: Cache<Inode>, nodes: seq<Inode>)
      requires HeldAt(directory, before) && Kept(before, cache.inodes, nodes)
      ensures Live(directory)
    {
      if directory != root { StillLive(before, cache.inodes, nodes, directory); }
    }

    /** Between two iterations: every entry placed is in the buffer and resolved to its
        node, has two references when the kernel and the vector share it, and every
        descriptor is accounted for. */
    ghost predicate InListing(plan: Plan, dirs: FuseDirsBuilder, os: Os, nodes: seq<Inode>, placed: seq<Inode>)
      reads cache, dirs, os
    {
      && Valid() && dirs.Valid() && InBalance(os, plan.due)
      && nodes == (if dirs.plus then placed else []) && Kept(plan.before, cache.inodes, nodes)
      && Buffered(dirs.buf, plan.encode, dirs.plus, plan.rest, placed)
      && plan.start + |placed| <= |plan.visits| && Resolves(plan.visits, plan.start, placed)
    }

    ghost predicate Prepared(plan: Plan, directory: Inode, plus: bool) {
      && HeldAt(directory, plan.before) && Positive(plan.before) && Room(plan.before, |plan.rest|)
      && SizesOf(plan.encode, plus, plan.sizes) && plan.start + |plan.rest| + 1 == |plan.visits|
    }

    /** The rest of an iteration, once the entry has been read. */
    method PlaceNext(dirs: FuseDirsBuilder, directory: Inode, entry: Dirent, visit: Visit, encode: Encoder, os: Os,
                     nodes: seq<Inode>, ghost placed: seq<Inode>, ghost plan: Plan)
      returns (last: bool, st: Status, nodes': seq<Inode>, ghost placed': seq<Inode>)
      requires Prepared(plan, directory, dirs.plus) && InListing(plan, dirs, os, nodes, placed) && encode == plan.encode
      requires |placed| < |plan.rest| && entry == plan.rest[|placed|]
      requires visit == plan.visits[plan.start + |placed|] && visit.readdir.None?
      modifies dirs, cache, os
      ensures InListing(plan, dirs, os, nodes', placed') && st == VisitStatus(visit, false)
      ensures last ==> placed' == placed && (st.Ok() ==> |dirs.buf| + plan.sizes(entry.name) > dirs.maxsize)
      ensures !last ==> st.Ok() && |placed'| == |placed| + 1
    {
      DirectoryStays(directory, plan.before, nodes);
      last, placed' := true, placed;
      var node;
      node, st, nodes' := PlaceEntry(dirs, directory, entry, visit, encode, os, nodes, placed, plan.before, plan.rest,
                                      plan.sizes, plan.due);
      if node != null {
        var found: Inode := node;
        ResolvesOneMore(plan.visits, plan.start, placed, found);
        last, placed' := false, placed + [found];
      }
    }

    /** One iteration, starting with the read of the entry. */
    method VisitNext(dirs: FuseDirsBuilder, directory: Inode, stream: DirStream, visits: seq<Visit>, encode: Encoder,
                     os: Os, nodes: seq<Inode>, ghost placed: seq<Inode>, ghost plan: Plan)
      returns (last: bool, st: Status, nodes': seq<Inode>, ghost placed': seq<Inode>)
      requires Prepared(plan, directory, dirs.plus) && InListing(plan, dirs, os, nodes, placed)
      requires encode == plan.encode && visits == plan.visits && |stream.entries| == plan.start + |plan.rest|
      requires plan.rest == stream.entries[plan.start..] && stream.pos == plan.start + |placed|
      modifies dirs, stream, cache, os
      ensures InListing(plan, dirs, os, nodes', placed') && |placed'| <= |plan.rest|
      ensures last ==> Ended(plan, dirs.maxsize - |dirs.buf|, |placed'|, st)
      ensures !last ==> st.Ok() && |placed'| == |placed| + 1 && stream.pos == old(stream.pos) + 1
      ensures last && st.Ok() ==> stream.pos == old(stream.pos) + if |placed| < |plan.rest| then 1 else 0
    {
      var visit := visits[stream.pos];
      last, nodes', placed' := true, nodes, placed;
      var entry;
      entry, st := ReadEntry(stream, visit.readdir);
      if entry.Some? {
        assert entry.value == plan.rest[|placed|];
        last, st, nodes', placed' := PlaceNext(dirs, directory, entry.value, visit, encode, os, nodes, placed, plan);
      }
    }

    /** `syscalls::readdir`: it may fail, and at the end there is no entry. */
    method ReadEntry(stream: DirStream, fails: Option<Failure>) returns (entry: Option<Dirent>, st: Status)
      requires stream.pos <= |stream.entries|
      modifies stream
      ensures st == if fails.None? then OK_STATUS else fails.value
      ensures if fails.None? && old(stream.pos) < |stream.entries|
        then entry == Some(stream.entries[old(stream.pos)]) && stream.pos == old(stream.pos) + 1
        else entry == None && stream.pos == old(stream.pos)
    {
      if fails.Some? { return None, fails.value; }
      entry := stream.Readdir();
      st := OK_STATUS;
    }

    /** The loop of `ReadDirInternal`: entries are placed until one does not fit, the
        stream ends, or something fails. */
    method FillPage(dirs: FuseDirsBuilder, directory: Inode, stream: DirStream, visits: seq<Visit>, encode: Encoder,
                    os: Os, ghost plan: Plan)
      returns (st: Status, nodes: seq<Inode>, ghost placed: seq<Inode>)
      requires Prepared(plan, directory, dirs.plus) && InListing(plan, dirs, os, [], [])
      requires encode == plan.encode && visits == plan.visits && |stream.entries| == plan.start + |plan.rest|
      requires plan.rest == stream.entries[plan.start..] && stream.pos == plan.start
      modifies dirs, stream, cache, os
      ensures InListing(plan, dirs, os, nodes, placed) && Ended(plan, dirs.maxsize - |dirs.buf|, |placed|, st)
    {
      nodes, placed := [], [];
      st := OK_STATUS;
      var last := false;
      while !last
        invariant InListing(plan, dirs, os, nodes, placed)
        invariant |placed| <= |plan.rest| && (!last ==> stream.pos == plan.start + |placed|)
        invariant last ==> Ended(plan, dirs.maxsize - |dirs.buf|, |placed|, st)
        decreases if last then 0 else 1 + |plan.rest| - |placed|
      {
        last, st, nodes, placed := VisitNext(dirs, directory, stream, visits, encode, os, nodes, placed, plan);
      }
    }

    /** `syscalls::seekdir`. */
    method SeekTo(stream: DirStream, off: nat)
      modifies stream
      ensures stream.pos == PositionOf(stream.entries, off) <= |stream.entries|
    {
      stream.Seekdir(off);
    }

    /** Up to the reply: the stream is set to the cookie and the page filled from there. */
    method FillPageFrom(dirs: FuseDirsBuilder, directory: Inode, stream: DirStream, off: nat, visits: seq<Visit>,
                        encode: Encoder, os: Os, ghost sizes: Sizes, ghost before: Cache<Inode>, ghost due: Due)
      returns (st: Status, nodes: seq<Inode>, ghost placed: seq<Inode>)
      requires Valid() && dirs.Valid() && Live(directory) && dirs.buf == []
      requires before == cache.inodes && InBalance(os, due)
      requires |visits| == |stream.entries| + 1 && SizesOf(encode, dirs.plus, sizes) && Room(before, |stream.entries|)
      modifies dirs, stream, cache, os
      ensures Valid() && dirs.Valid() && InBalance(os, due)
      ensures nodes == (if dirs.plus then placed else []) && Kept(before, cache.inodes, nodes)
      ensures st.Ok() <==> PageSmooth(visits, stream.entries, off, sizes, dirs.maxsize)
      ensures st.Ok() ==> IsPage(dirs.buf, encode, dirs.plus, stream.entries, off, sizes, dirs.maxsize, visits, placed)
      ensures StoppedAt(visits, stream.entries, off, placed, st)
    {
      SeekTo(stream, off);
      ghost var start, rest := stream.pos, stream.entries[stream.pos..];
      ghost var plan := Plan(before, start, rest, visits, encode, sizes, due);
      NothingKept(before);
      st, nodes, placed := FillPage(dirs, directory, stream, visits, encode, os, plan);
      Filling(plan, stream.entries, off, dirs.buf, dirs.plus, dirs.maxsize, placed, st);
    }

    /** What scope exit does to the references taken: the guard, unless cancelled, gives
        back the kernel's, then the vector gives back its own. */
    method Unwind(nodes: seq<Inode>, cancelled: bool, os: Os, ghost before: Cache<Inode>, ghost due: Due)
      requires Valid() && InBalance(os, due) && Positive(before) && Kept(before, cache.inodes, nodes)
      modifies cache, os`closes
      ensures Valid() && InBalance(os, due)
      ensures cancelled ==> Shifted(before, cache.inodes, KeysOf(nodes)) && AllCached(cache.inodes, nodes)
      ensures !cancelled ==> cache.inodes == before
    {
      ghost var c := cache.inodes;
      DropAll(nodes, os, before, KeysOf(nodes), due);
      AllStayCached(before, c, cache.inodes, nodes);
      if !cancelled {
        assert multiset{} + KeysOf(nodes) == KeysOf(nodes);
        DropAll(nodes, os, before, multiset{}, due);
        ShiftedByNothing(before, cache.inodes);
      }
    }

    /** `ReadDirInternal`: the page the kernel gets is the longest run of entries from
        the cookie on that fits, however far the stream has been read.  On failure, and
        always without `plus`, the cache is left as it was; a page that was taken with
        `plus` leaves one reference for each entry on it. */
    method ReadDirInternal(req: FuseRequest, session: Session, directory: Inode, stream: DirStream, size: nat, off: nat,
                           plus: bool, visits: seq<Visit>, encode: Encoder, rc: ReplyResult, os: Os, ghost sizes: Sizes)
      returns (st: Status, ghost placed: seq<Inode>, ghost bytes: seq<Byte>)
      requires Valid() && Live(directory) && GoodLibc(session.libc)
      requires |visits| == |stream.entries| + 1 && SizesOf(encode, plus, sizes) && Room(cache.inodes, |stream.entries|)
      modifies req, session, stream, cache, os
      ensures Valid()
      ensures st.Ok() <==> PageSmooth(visits, stream.entries, off, sizes, size) && (old(req.req).None? || rc == 0)
      ensures PageSmooth(visits, stream.entries, off, sizes, size) ==> st == ReplyStatus(session.libc, old(req.req), rc)
      ensures !PageSmooth(visits, stream.entries, off, sizes, size) ==>
        StoppedAt(visits, stream.entries, off, placed, st)
      ensures !plus || !st.Ok() ==> cache.inodes == old(cache.inodes)
      ensures plus && st.Ok() ==>
        Shifted(old(cache.inodes), cache.inodes, KeysOf(placed)) && AllCached(cache.inodes, placed)
      ensures if PageSmooth(visits, stream.entries, off, sizes, size)
        then
          && IsPage(bytes, encode, plus, stream.entries, off, sizes, size, visits, placed)
          && req.req == None && session.log == old(session.log) + Sent(old(req.req), BufReply(bytes), rc)
        else req.req == old(req.req) && session.log == old(session.log)
      ensures Ledger(os.closes, cache.inodes) + multiset(old(os.opens)) ==
        old(Ledger(os.closes, cache.inodes)) + multiset(os.opens)
      ensures !plus || !st.Ok() ==>
        multiset(os.closes) + multiset(old(os.opens)) == multiset(old(os.closes)) + multiset(os.opens)
    {
      ghost var before, due := cache.inodes, Due(Ledger(os.closes, cache.inodes), os.opens);
      var dirs := new FuseDirsBuilder(plus, size);
      var nodes;
      st, nodes, placed := FillPageFrom(dirs, directory, stream, off, visits, encode, os, sizes, before, due);
      bytes := dirs.buf;
      if st.Ok() {
        st := dirs.Reply(req, session, rc);
      }
      Unwind(nodes, st.Ok(), os, before, due);
      if !plus {
        ShiftedByNothing(before, cache.inodes);
      }
      if !plus || !st.Ok() {
        AllClosed(old(os.closes), old(os.opens), os.closes, os.opens, before);
      }
    }

    /** `ReadDir` and `ReadDirPlus` through their wrapper: one completion.  It is the page
        when nothing goes wrong, and otherwise the errno of what the listing stopped at;
        references are kept only for the entries of a page that the kernel accepted from
        `ReadDirPlus`, and every descriptor opened is closed or held by a cached inode. */
    method ReadDir(session: Session, id: ReqId, directory: NodeId, stream: DirStream, size: nat, off: nat, plus: bool,
                   visits: seq<Visit>, encode: Encoder, rc: ReplyResult, wrapperRc: ReplyResult,
                   destructorRc: ReplyResult, os: Os, ghost sizes: Sizes)
      returns (ghost placed: seq<Inode>)
      requires Valid() && GoodLibc(session.libc) && (directory.Pointer? ==> Live(directory.inode))
      requires |visits| == |stream.entries| + 1 && SizesOf(encode, plus, sizes) && Room(cache.inodes, |stream.entries|)
      modifies session, stream, cache, os
      ensures Valid() && OneMore(old(session.log), session.log, id)
      ensures var last := session.log[|old(session.log)|];
        && (last.reply.BufReply? <==> PageSmooth(visits, stream.entries, off, sizes, size))
        && (last.reply.BufReply? ==>
            last.rc == rc && IsPage(last.reply.bytes, encode, plus, stream.entries, off, sizes, size, visits, placed))
        && (!last.reply.BufReply? ==>
            && PositionOf(stream.entries, off) + |placed| <= |stream.entries|
            && Resolves(visits, PositionOf(stream.entries, off), placed)
            && IsFailure(last, id, visits[PositionOf(stream.entries, off) + |placed|], wrapperRc))
        && if plus && last.Accepted() && last.reply.BufReply?
           then Shifted(old(cache.inodes), cache.inodes, KeysOf(placed)) && AllCached(cache.inodes, placed)
           else cache.inodes == old(cache.inodes)
      ensures (forall i | 0 <= i < |visits| ::
          visits[i].readdir.None?
          && (i + 1 < |visits| ==> visits[i].child.Resolved? && visits[i].describe.failure.None?))
        ==> session.log[|old(session.log)|].reply.BufReply?
      ensures Ledger(os.closes, cache.inodes) + multiset(old(os.opens)) ==
        old(Ledger(os.closes, cache.inodes)) + multiset(os.opens)
    {
      var inode := GetInode(directory);
      var req := new FuseRequest(id);
      placed := AnswerListing(req, session, id, inode, stream, size, off, plus, visits, encode, rc, wrapperRc,
                              destructorRc, os, sizes);
      if forall i | 0 <= i < |visits| ::
          visits[i].readdir.None?
          && (i + 1 < |visits| ==> visits[i].child.Resolved? && visits[i].describe.failure.None?)
      {
        EveryPageSmooth(visits, stream.entries, off, sizes, size);
      }
    }

    /** The handler's work and what the wrapper makes of it. */
    method AnswerListing(req: FuseRequest, session: Session, id: ReqId, directory: Inode, stream: DirStream, size: nat,
                         off: nat, plus: bool, visits: seq<Visit>, encode: Encoder, rc: ReplyResult,
                         wrapperRc: ReplyResult, destructorRc: ReplyResult, os: Os, ghost sizes: Sizes)
      returns (ghost placed: seq<Inode>)
      requires Valid() && GoodLibc(session.libc) && Live(directory) && req.req == Some(id)
      requires |visits| == |stream.entries| + 1 && SizesOf(encode, plus, sizes) && Room(cache.inodes, |stream.entries|)
      modifies req, session, stream, cache, os
      ensures Valid() && OneMore(old(session.log), session.log, id)
      ensures var last := session.log[|old(session.log)|];
        if PageSmooth(visits, stream.entries, off, sizes, size) then
          && last.reply.BufReply? && last.rc == rc
          && IsPage(last.reply.bytes, encode, plus, stream.entries, off, sizes, size, visits, placed)
          && if plus && rc == 0
             then Shifted(old(cache.inodes), cache.inodes, KeysOf(placed)) && AllCached(cache.inodes, placed)
             else cache.inodes == old(cache.inodes)
        else
          && cache.inodes == old(cache.inodes) && last.reply.ErrReply?
          && PositionOf(stream.entries, off) + |placed| <= |stream.entries|
          && Resolves(visits, PositionOf(stream.entries, off), placed)
          && IsFailure(last, id, visits[PositionOf(stream.entries, off) + |placed|], wrapperRc)
      ensures Ledger(os.closes, cache.inodes) + multiset(old(os.opens)) ==
        old(Ledger(os.closes, cache.inodes)) + multiset(os.opens)
    {
      var st;
      ghost var bytes;
      st, placed, bytes := ReadDirInternal(req, session, directory, stream, size, off, plus, visits, encode, rc, os,
                                           sizes);
      req.ReplyAlwaysAndLogIfNotOk(session, st, wrapperRc);
      req.Destroy(session, destructorRc);
    }
  }

  /** Nothing new is cached. */
  ghost predicate Within(c': Cache<Inode>, c: Cache<Inode>) {
    forall k | k in c' :: k in c && c'[k].node == c[k].node
  }

  lemma StillInBalance(ledger: multiset<int>, opens: seq<int>, more: seq<int>, due: Due)
    requires ledger + multiset(due.opens) == due.ledger + multiset(opens)
    ensures ledger + multiset(more) + multiset(due.opens) == due.ledger + multiset(opens + more)
  {
    forall x: int
      ensures (ledger + multiset(more) + multiset(due.opens))[x] == (due.ledger + multiset(opens + more))[x]
    {
      assert (ledger + multiset(due.opens))[x] == (due.ledger + multiset(opens))[x];
    }
  }

  lemma ProbeInBalance(closes: seq<int>, c: Cache<Inode>, opens: seq<int>, probes: seq<int>, due: Due)
    requires Ledger(closes, c) + multiset(due.opens) == due.ledger + multiset(opens)
    ensures Ledger(closes + probes, c) + multiset(due.opens) == due.ledger + multiset(opens + probes)
  {
    StillInBalance(Ledger(closes, c), opens, probes, due);
    forall x: int ensures Ledger(closes + probes, c)[x] == (Ledger(closes, c) + multiset(probes))[x] {}
  }

  /** When the cache is as it was, everything opened has been closed. */
  lemma AllClosed(closes: seq<int>, opens: seq<int>, closes': seq<int>, opens': seq<int>, c: Cache<Inode>)
    requires Ledger(closes', c) + multiset(opens) == Ledger(closes, c) + multiset(opens')
    ensures multiset(closes') + multiset(opens) == multiset(closes) + multiset(opens')
  {
    forall x: int ensures (multiset(closes') + multiset(opens))[x] == (multiset(closes) + multiset(opens'))[x] {
      assert (Ledger(closes', c) + multiset(opens))[x] == (Ledger(closes, c) + multiset(opens'))[x];
    }
  }

  lemma LedgerFindOrCreate(closes: seq<int>, c: Cache<Inode>, closes': seq<int>, c': Cache<Inode>, child: Child,
                           node: Inode?)
    requires closes' == closes + Leftover(c, child)
    requires !child.Resolved? ==> c' == c
    requires child.Resolved? ==> node != null && c' == RefCounts.Insert(c, child.key, node)
    requires child.Resolved? && child.key !in c ==> node.fd == child.fd
    ensures Ledger(closes', c') == Ledger(closes, c) + multiset(Opens(child))
  {
    if child.Resolved? {
      FdsInsert(c, child.key, node);
    }
  }

  /** What the environment makes of one directory entry. */
  datatype Visit = Visit(readdir: Option<Failure>, child: Child, describe: Description)

  /** What the visit comes to: a failure to read the entry, to resolve its name or to
      describe it, in that order; at the end of the stream only the read can fail. */
  function VisitStatus(visit: Visit, atEnd: bool): Status {
    if visit.readdir.Some? then visit.readdir.value
    else if atEnd then OK_STATUS
    else if !visit.child.Resolved? then visit.child.failure
    else if visit.describe.failure.Some? then visit.describe.failure.value
    else OK_STATUS
  }

  /** The completion carries the errno of what goes wrong in the visit. */
  predicate IsFailure(last: Completion, id: ReqId, visit: Visit, rc: ReplyResult) {
    last == Completion(id, ErrReply(FailureErrno(
      if visit.readdir.Some? then visit.readdir.value
      else if !visit.child.Resolved? then visit.child.failure
      else if visit.describe.failure.Some? then visit.describe.failure.value
      else OK_STATUS)), rc)
  }

  lemma EveryPageSmooth(visits: seq<Visit>, entries: seq<Dirent>, off: nat, sizes: Sizes, room: nat)
    requires |visits| == |entries| + 1
    requires forall i | 0 <= i <= |entries| ::
      visits[i].readdir.None? && (i < |entries| ==> visits[i].child.Resolved? && visits[i].describe.failure.None?)
    ensures PageSmooth(visits, entries, off, sizes, room)
  {
    PositionBound(entries, off);
    PageLengthBound(entries[PositionOf(entries, off)..], sizes, room);
  }

  /** A listing stops at the entry behind those it placed, with what it meets there. */
  ghost predicate StoppedAt(visits: seq<Visit>, entries: seq<Dirent>, off: nat, placed: seq<Inode>, st: Status) {
    var stop := PositionOf(entries, off) + |placed|;
    && stop < |visits| && stop <= |entries| && Resolves(visits, PositionOf(entries, off), placed)
    && st == VisitStatus(visits[stop], stop == |entries|)
  }

  /** What does not change while a listing runs: the cache it found, where it began, what
      the stream and the environment hold for it. */
  datatype Plan = Plan(before: Cache<Inode>, start: nat, rest: seq<Dirent>, visits: seq<Visit>, encode: Encoder,
                       sizes: Sizes, due: Due)

  /** Nothing goes wrong there; the end of the stream only needs to be reached. */
  predicate Smooth(visit: Visit, atEnd: bool) {
    visit.readdir.None? && (atEnd || (visit.child.Resolved? && visit.describe.failure.None?))
  }

  ghost predicate AllSmooth(visits: seq<Visit>, start: nat, n: nat)
    requires start + n <= |visits|
  {
    forall i | start <= i < start + n :: Smooth(visits[i], false)
  }

  /** Nothing went wrong, and the name resolved to this node. */
  predicate IsFor(node: Inode, visit: Visit) {
    Smooth(visit, false) && node.key == visit.child.key
  }

  /** The nodes are those the entries' names resolve to. */
  ghost predicate Resolves(visits: seq<Visit>, start: nat, placed: seq<Inode>)
    requires start + |placed| <= |visits|
  {
    forall i | 0 <= i < |placed| :: IsFor(placed[i], visits[start + i])
  }

  lemma ResolvesOneMore(visits: seq<Visit>, start: nat, placed: seq<Inode>, node: Inode)
    requires start + |placed| < |visits| && Resolves(visits, start, placed)
    requires IsFor(node, visits[start + |placed|])
    ensures Resolves(visits, start, placed + [node])
  {}

  lemma ResolvesIsSmooth(visits: seq<Visit>, start: nat, placed: seq<Inode>)
    requires start + |placed| <= |visits| && Resolves(visits, start, placed)
    ensures AllSmooth(visits, start, |placed|)
  {
    forall i | start <= i < start + |placed| ensures Smooth(visits[i], false) {
      assert IsFor(placed[i - start], visits[start + (i - start)]);
    }
  }

  /** Nothing goes wrong on the page, nor at the entry that ends it. */
  ghost predicate PageSmooth(visits: seq<Visit>, entries: seq<Dirent>, off: nat, sizes: Sizes, room: nat)
    requires |visits| == |entries| + 1
  {
    PositionBound(entries, off);
    PageLengthBound(entries[PositionOf(entries, off)..], sizes, room);
    var start := PositionOf(entries, off);
    var n := PageLength(entries[start..], sizes, room);
    AllSmooth(visits, start, n) && Smooth(visits[start + n], start + n == |entries|)
  }

  lemma FilledIsPage(visits: seq<Visit>, entries: seq<Dirent>, off: nat, sizes: Sizes, room: nat, n: nat,
                     st: Status)
    requires |visits| == |entries| + 1 && PositionOf(entries, off) + n <= |entries|
    requires AllSmooth(visits, PositionOf(entries, off), n)
    requires var start := PositionOf(entries, off);
      Filled(entries[start..], sizes, room, n, st.Ok()) && st == VisitStatus(visits[start + n], start + n == |entries|)
    ensures var start := PositionOf(entries, off);
      && (PageSmooth(visits, entries, off, sizes, room) <==> st.Ok())
      && (st.Ok() ==> Page(entries, off, sizes, room) == entries[start..][..n])
  {
    var start := PositionOf(entries, off);
    PageLengthAtLeast(entries[start..], sizes, room, n);
    if st.Ok() {
      PageLengthIs(entries[start..], sizes, room, n);
    } else if n < PageLength(entries[start..], sizes, room) {
      assert !Smooth(visits[start + n], false);
    }
  }

  /** Where the loop stopped is where the page ends, or where something failed. */
  lemma Filling(plan: Plan, entries: seq<Dirent>, off: nat, buf: seq<Byte>, plus: bool, room: nat, placed: seq<Inode>,
                st: Status)
    requires PositionOf(entries, off) == plan.start <= |entries| && plan.rest == entries[plan.start..]
    requires |plan.visits| == |entries| + 1 && SizesOf(plan.encode, plus, plan.sizes) && |buf| <= room
    requires Buffered(buf, plan.encode, plus, plan.rest, placed) && Ended(plan, room - |buf|, |placed|, st)
    requires Resolves(plan.visits, plan.start, placed)
    ensures st.Ok() <==> PageSmooth(plan.visits, entries, off, plan.sizes, room)
    ensures st.Ok() ==> IsPage(buf, plan.encode, plus, entries, off, plan.sizes, room, plan.visits, placed)
    ensures StoppedAt(plan.visits, entries, off, placed, st)
  {
    ResolvesIsSmooth(plan.visits, plan.start, placed);
    FilledUp(plan, buf, plus, placed, room, st);
    FilledIsPage(plan.visits, entries, off, plan.sizes, room, |placed|, st);
  }

  /** The space an entry takes depends on its name only. */
  ghost predicate SizesOf(encode: Encoder, plus: bool, sizes: Sizes) {
    forall name, ino, off :: |encode(plus, name, ino, off)| == sizes(name)
  }

  /** No count can reach 2^64 while a directory of `n` entries is read. */
  ghost predicate Room(c: Cache<Inode>, n: nat) {
    forall k: Key :: Count(c, k) + 2 * n + 2 < TWO_64
  }

  /** How far a page got: what it holds fits, and when it was not cut short by a failure
      nothing more would. */
  ghost predicate Filled(rest: seq<Dirent>, sizes: Sizes, room: nat, n: nat, ok: bool) {
    && n <= |rest| && PageSize(rest[..n], sizes) <= room
    && (ok && n < |rest| ==> PageSize(rest[..n], sizes) + sizes(rest[n].name) > room)
  }

  /** Why it stopped there: what it met at the entry decides between success and failure,
      and if it succeeds the entry does not fit into the room that is left. */
  ghost predicate Ended(plan: Plan, left: int, n: nat, st: Status) {
    && n <= |plan.rest| && plan.start + n < |plan.visits|
    && st == VisitStatus(plan.visits[plan.start + n], n == |plan.rest|)
    && (st.Ok() && n < |plan.rest| ==> plan.sizes(plan.rest[n].name) > left)
  }

  /** The bytes are those of the page that goes on from the cookie, with the nodes its
      names resolve to. */
  ghost predicate IsPage(bytes: seq<Byte>, encode: Encoder, plus: bool, entries: seq<Dirent>, off: nat, sizes: Sizes,
                         room: nat, visits: seq<Visit>, placed: seq<Inode>)
  {
    && |placed| == |Page(entries, off, sizes, room)|
    && PositionOf(entries, off) + |placed| <= |visits| && Resolves(visits, PositionOf(entries, off), placed)
    && bytes == PageBytes(encode, plus, Page(entries, off, sizes, room), Addresses(placed))
  }

  ghost function Addresses(nodes: seq<Inode>): (r: seq<nat>)
    ensures |r| == |nodes|
    ensures forall i | 0 <= i < |nodes| :: r[i] == nodes[i].addr
  {
    if nodes == [] then [] else Addresses(nodes[..|nodes| - 1]) + [nodes[|nodes| - 1].addr]
  }

  /** The entries placed so far, as the buffer holds them. */
  ghost function BufferOf(encode: Encoder, plus: bool, rest: seq<Dirent>, placed: seq<Inode>): seq<Byte>
    requires |placed| <= |rest|
  {
    if placed == [] then []
    else
      var last := |placed| - 1;
      BufferOf(encode, plus, rest, placed[..last])
      + encode(plus, rest[last].name, placed[last].addr, rest[last].off)
  }

  ghost predicate Buffered(buf: seq<Byte>, encode: Encoder, plus: bool, rest: seq<Dirent>, placed: seq<Inode>) {
    |placed| <= |rest| && buf == BufferOf(encode, plus, rest, placed)
  }

  lemma BufferedOneMore(buf: seq<Byte>, encode: Encoder, plus: bool, rest: seq<Dirent>, placed: seq<Inode>, node: Inode)
    requires Buffered(buf, encode, plus, rest, placed) && |placed| < |rest|
    ensures var next := rest[|placed|];
      Buffered(buf + encode(plus, next.name, node.addr, next.off), encode, plus, rest, placed + [node])
  {
    assert (placed + [node])[..|placed|] == placed;
  }

  lemma {:induction false} BufferOfIsPage(encode: Encoder, plus: bool, rest: seq<Dirent>, placed: seq<Inode>,
                                          sizes: Sizes)
    requires |placed| <= |rest| && SizesOf(encode, plus, sizes)
    ensures BufferOf(encode, plus, rest, placed) == PageBytes(encode, plus, rest[..|placed|], Addresses(placed))
    ensures |BufferOf(encode, plus, rest, placed)| == PageSize(rest[..|placed|], sizes)
  {
    if placed != [] {
      var last := |placed| - 1;
      BufferOfIsPage(encode, plus, rest, placed[..last], sizes);
      assert rest[..|placed|][..last] == rest[..last];
      assert Addresses(placed)[..last] == Addresses(placed[..last]);
    }
  }

  /** Where the loop stops, the page is full, cut short by a failure, or at the end. */
  lemma FilledUp(plan: Plan, buf: seq<Byte>, plus: bool, placed: seq<Inode>, room: nat, st: Status)
    requires Buffered(buf, plan.encode, plus, plan.rest, placed) && |buf| <= room
    requires SizesOf(plan.encode, plus, plan.sizes) && Ended(plan, room - |buf|, |placed|, st)
    ensures Filled(plan.rest, plan.sizes, room, |placed|, st.Ok())
    ensures buf == PageBytes(plan.encode, plus, plan.rest[..|placed|], Addresses(placed))
  {
    BufferOfIsPage(plan.encode, plus, plan.rest, placed, plan.sizes);
  }

  /** Beyond what was there at the start, the cache holds two references to each of
      these nodes: the kernel's and the vector's. */
  ghost predicate Kept(before: Cache<Inode>, c: Cache<Inode>, nodes: seq<Inode>) {
    AllCached(c, nodes) && Shifted(before, c, KeysOf(nodes) + KeysOf(nodes))
  }

  lemma NothingKept(before: Cache<Inode>)
    ensures Kept(before, before, [])
  {
    ShiftedByNothing(before, before);
    assert KeysOf([]) + KeysOf([]) == multiset{};
  }

  lemma StillLive(before: Cache<Inode>, c: Cache<Inode>, nodes: seq<Inode>, directory: Inode)
    requires Kept(before, c, nodes) && directory.key in before && before[directory.key].node == directory
    ensures directory.key in c && c[directory.key].node == directory
  {}

  lemma Doubled(more: multiset<Key>, k: Key)
    ensures more + more + multiset{k} + multiset{k} == (more + multiset{k}) + (more + multiset{k})
    ensures forall x | x in more :: x in more + more + multiset{k} + multiset{k}
  {}

  lemma KeptOneMore(before: Cache<Inode>, c: Cache<Inode>, c': Cache<Inode>, nodes: seq<Inode>, node: Inode)
    requires Kept(before, c, nodes) && SameNodes(c, c') && node.key in c' && c'[node.key].node == node
    requires Shifted(before, c', KeysOf(nodes) + KeysOf(nodes) + multiset{node.key} + multiset{node.key})
    ensures Kept(before, c', nodes + [node])
  {
    KeysOfAppend(nodes, node);
    Doubled(KeysOf(nodes), node.key);
    KeptCached(before, c, c', nodes, KeysOf(nodes) + KeysOf(nodes) + multiset{node.key} + multiset{node.key});
  }

  lemma RoomForTwo(before: Cache<Inode>, nodes: seq<Inode>, n: nat)
    requires Room(before, n) && |nodes| <= n
    ensures forall k: Key :: Count(before, k) + (KeysOf(nodes) + KeysOf(nodes))[k] + 2 < TWO_64
  {
    forall k: Key ensures Count(before, k) + (KeysOf(nodes) + KeysOf(nodes))[k] + 2 < TWO_64 {
      KeysOfBounds(nodes, k);
    }
  }

  ghost predicate AllCached(c: Cache<Inode>, nodes: seq<Inode>) {
    forall i | 0 <= i < |nodes| :: nodes[i].key in c && c[nodes[i].key].node == nodes[i]
  }

  ghost function KeysOf(nodes: seq<Inode>): multiset<Key> {
    if nodes == [] then multiset{} else multiset{nodes[0].key} + KeysOf(nodes[1..])
  }

  lemma {:induction false} KeysOfAppend(nodes: seq<Inode>, node: Inode)
    ensures KeysOf(nodes + [node]) == KeysOf(nodes) + multiset{node.key}
  {
    if nodes != [] {
      assert (nodes + [node])[1..] == nodes[1..] + [node];
      KeysOfAppend(nodes[1..], node);
    }
  }

  lemma {:induction false} KeysOfBounds(nodes: seq<Inode>, k: Key)
    ensures KeysOf(nodes)[k] <= |nodes|
    ensures KeysOf(nodes)[k] > 0 <==> exists i | 0 <= i < |nodes| :: nodes[i].key == k
  {
    if nodes != [] {
      KeysOfBounds(nodes[1..], k);
      assert forall i | 0 < i < |nodes| :: nodes[i] == nodes[1..][i - 1];
    }
  }

  lemma KeptCached(before: Cache<Inode>, c: Cache<Inode>, c': Cache<Inode>, nodes: seq<Inode>, more: multiset<Key>)
    requires AllCached(c, nodes) && SameNodes(c, c')
    requires Shifted(before, c', more) && forall k | k in KeysOf(nodes) :: k in more
    ensures AllCached(c', nodes)
  {
    forall i | 0 <= i < |nodes| ensures nodes[i].key in c' {
      KeysOfBounds(nodes, nodes[i].key);
      assert nodes[i].key in KeysOf(nodes);
    }
  }

  lemma AllStayCached(before: Cache<Inode>, c: Cache<Inode>, c': Cache<Inode>, nodes: seq<Inode>)
    requires AllCached(c, nodes) && Within(c', c) && Shifted(before, c', KeysOf(nodes))
    ensures AllCached(c', nodes)
  {
    forall i | 0 <= i < |nodes| ensures nodes[i].key in c' {
      KeysOfBounds(nodes, nodes[i].key);
    }
  }

  /** As long as the balance still mentions the others, they stay. */
  lemma OthersStayCached(before: Cache<Inode>, c: Cache<Inode>, c': Cache<Inode>, nodes: seq<Inode>,
                         more: multiset<Key>)
    requires nodes != [] && AllCached(c, nodes) && Within(c', c)
    requires Shifted(before, c', more) && KeysOf(nodes[1..]) <= more
    ensures AllCached(c', nodes[1..])
  {
    forall i | 0 <= i < |nodes| - 1 ensures nodes[1..][i].key in c' {
      KeysOfBounds(nodes[1..], nodes[1..][i].key);
      assert more[nodes[1..][i].key] >= KeysOf(nodes[1..])[nodes[1..][i].key] > 0;
    }
  }

  lemma SameThroughout(c: Cache<Inode>, held: Cache<Inode>, c': Cache<Inode>)
    requires Within(c, held) && SameNodes(held, c')
    ensures SameNodes(c, c')
  {}

  /** The batch as the cache sees it: an inode finds its entry by its own key. */
  function Keys(forgets: seq<(NodeId, uint64)>): seq<(Key, uint64)> {
    seq(|forgets|, i requires 0 <= i < |forgets| =>
      (if forgets[i].0.Pointer? then forgets[i].0.inode.key else Key(0, 0), forgets[i].1))
  }

  /** The descriptors of the inodes a batch erases, in the order of erasure. */
  function ErasedFds(c: Cache<Inode>, batch: seq<(Key, uint64)>): seq<int>
    decreases |batch|
  {
    if batch == [] then []
    else
      match Unref(c, batch[0].0, batch[0].1)
      case Updated(c') =>
        (if batch[0].0 in c && batch[0].0 !in c' then [c[batch[0].0].node.fd] else []) + ErasedFds(c', batch[1..])
      case _ => []
  }

  lemma FirstErased(c: Cache<Inode>, batch: seq<(Key, uint64)>, closes: seq<int>, closes': seq<int>, c': Cache<Inode>)
    requires batch != [] && batch[0].0 in c && Unref(c, batch[0].0, batch[0].1) == Updated(c')
    requires closes' == closes + if batch[0].0 !in c' then [c[batch[0].0].node.fd] else []
    ensures ForgetAll(c', batch[1..]) == ForgetAll(c, batch)
    ensures closes' + ErasedFds(c', batch[1..]) == closes + ErasedFds(c, batch)
  {
    ErasedFdsStep(c, batch, c');
    InOrder(closes, if batch[0].0 !in c' then [c[batch[0].0].node.fd] else [], ErasedFds(c', batch[1..]));
  }

  lemma ErasedFdsStep(c: Cache<Inode>, batch: seq<(Key, uint64)>, c': Cache<Inode>)
    requires batch != [] && batch[0].0 in c && Unref(c, batch[0].0, batch[0].1) == Updated(c')
    ensures ErasedFds(c, batch) ==
      (if batch[0].0 !in c' then [c[batch[0].0].node.fd] else []) + ErasedFds(c', batch[1..])
  {}

  lemma InOrder(x: seq<int>, y: seq<int>, z: seq<int>)
    ensures (x + y) + z == x + (y + z)
  {}

  /** They are the descriptors that are missing from the cache afterwards. */
  lemma {:induction false} ErasedFdsBalance(c: Cache<Inode>, batch: seq<(Key, uint64)>)
    ensures CachedFds(c) == CachedFds(ForgetAll(c, batch)) + multiset(ErasedFds(c, batch))
    decreases |batch|
  {
    if batch != [] && Unref(c, batch[0].0, batch[0].1).Updated? {
      var k, c' := batch[0].0, Unref(c, batch[0].0, batch[0].1).cache;
      FdsUnref(c, k, batch[0].1);
      ErasedFdsBalance(c', batch[1..]);
      assert ErasedFds(c, batch) == (if k !in c' then [c[k].node.fd] else []) + ErasedFds(c', batch[1..]);
    }
  }

  lemma TotalMentions(batch: seq<(Key, uint64)>, j: nat)
    requires j < |batch|
    ensures Total(batch, batch[j].0) >= batch[j].1
  {
    if j > 0 { TotalMentions(batch[1..], j - 1); }
  }

  /** Forgetting the first node of a covered batch leaves the later ones cached. */
  lemma StillCached(c: Cache<Inode>, forgets: seq<(NodeId, uint64)>)
    requires Positive(c) && Covered(c, Keys(forgets)) && forgets != []
    requires forall i | 0 <= i < |forgets| :: forgets[i].0.Pointer?
    requires forall i | 0 <= i < |forgets| ::
      forgets[i].0.inode.key in c && c[forgets[i].0.inode.key].node == forgets[i].0.inode
    ensures var c' := Unref(c, Keys(forgets)[0].0, Keys(forgets)[0].1);
      c'.Updated? && forall i | 0 < i < |forgets| ::
        forgets[i].0.inode.key in c'.cache && c'.cache[forgets[i].0.inode.key].node == forgets[i].0.inode
  {
    var batch := Keys(forgets);
    CoveredStep(c, batch);
    var c' := Unref(c, batch[0].0, batch[0].1).cache;
    forall i | 0 < i < |forgets|
      ensures forgets[i].0.inode.key in c' && c'[forgets[i].0.inode.key].node == forgets[i].0.inode
    {
      TotalMentions(batch[1..], i - 1);
      assert Total(batch[1..], batch[i].0) <= Count(c', batch[i].0);
    }
  }

  /** The log grew by one completion of this request. */
  predicate OneMore(before: seq<Completion>, after: seq<Completion>, id: ReqId) {
    |after| == |before| + 1 && after[..|before|] == before && after[|before|].req == id
  }

  lemma Balanced(before: Cache<Inode>, after: Cache<Inode>, key: Key, node: Inode)
    requires after == RefCounts.Insert(before, key, node) && Count(before, key) + 1 < TWO_64
    ensures Shifted(before, after, multiset{key})
  {
    ShiftedByNothing(before, before);
    ShiftInsert(before, before, multiset{}, key, node);
    assert multiset{} + multiset{key} == multiset{key};
  }

  /** What keeps the handler from its reply: opening or reading the child, another device,
      or filling in the entry, in that order. */
  function EntryFailure(parent: Inode, child: Child, describe: Description): Option<Status> {
    if !child.Resolved? then Some(child.failure)
    else if child.key.dev != parent.key.dev then Some(Status(FailedPrecondition, None))
    else if describe.failure.Some? then Some(describe.failure.value)
    else None
  }

  /** What a reply returns. */
  function ReplyStatus(libc: Libc, req: Option<ReqId>, rc: ReplyResult): Status {
    if req.None? then OK_STATUS else ErrnoToStatus(libc, 0 - rc)
  }

  /** The id of the child: that of the inode cached for it, or else its own. */
  function EntryIno(c: Cache<Inode>, child: Child): nat
    requires child.Resolved?
  {
    if child.key in c then c[child.key].node.addr else child.addr
  }

  /** One reference more to the child, which is cached as what it was or as what it was
      resolved to. */
  ghost predicate Granted(c: Cache<Inode>, c': Cache<Inode>, child: Child) {
    && child.Resolved? && Shifted(c, c', multiset{child.key})
    && child.key in c' && c'[child.key].node.addr == EntryIno(c, child)
    && (child.key !in c ==> c'[child.key].node.fd == child.fd)
  }

  function EntryOrCreate(ino: nat, file: Option<int>): Reply {
    if file.Some? then CreateReply(ino, file.value) else EntryReply(ino)
  }
}
