/** What every step of the protocol keeps. */
module ProtocolInvariant {
  import opened Options
  import opened RefCounts
  import opened Protocol

  /** The references to an object that the requests in flight account for. */
  function AllRefs(tasks: seq<Task>, a: Addr): nat {
    if tasks == [] then 0 else AllRefs(tasks[..|tasks| - 1], a) + Refs(tasks[|tasks| - 1], a)
  }

  /** The count the cache keeps for the object at an address; nothing at that
      address counts zero. */
  function CountAt(s: State, a: Addr): nat {
    if a in s.heap then Count(s.cache, s.heap[a].key) else 0
  }

  /** Cached keys and live objects correspond one to one, and an object's own key is
      the one it is cached under. */
  ghost predicate CacheOk(s: State) {
    && (forall k | k in s.cache ::
          s.cache[k].refcnt > 0 && s.cache[k].node in s.heap && s.heap[s.cache[k].node].key == k)
    && (forall a | a in s.heap ::
          a != ROOT_ID && s.heap[a].key in s.cache && s.cache[s.heap[a].key].node == a)
  }

  /** The references the kernel was given, whether it counts them or not. */
  function Owed(s: State, a: Addr): nat {
    s.lookups[a] + s.uncounted[a]
  }

  /** The count of every object is the shared pointers, unsettled grants and forgets
      in flight, plus the references the kernel was given. */
  ghost predicate CountsOk(s: State) {
    forall a: Addr :: CountAt(s, a) == AllRefs(s.tasks, a) + Owed(s, a)
  }

  ghost predicate NamesKnown(s: State, task: Task) {
    forall id | id in Names(task) :: Known(s, id)
  }

  /** The kernel holds a lookup on every id it has named in an unanswered request and
      on every id it has a file open on. */
  ghost predicate KernelOk(s: State) {
    && (forall t | 0 <= t < |s.tasks| :: NamesKnown(s, s.tasks[t]))
    && (forall fd | fd in s.handles :: Known(s, s.handles[fd]))
  }

  /** The holder actually holds the descriptor. */
  ghost predicate Holds(s: State, holder: Holder, fd: Fd) {
    match holder
    case ByRoot => fd == s.root.fd
    case ByNode(a) => a in s.heap && s.heap[a].fd == fd
    case ByHandle => fd in s.handles
    case ByTask(t) => t < |s.tasks| && Fds(s.tasks[t], fd) == 1
  }

  ghost predicate TaskFdsOpen(s: State, t: nat, task: Task) {
    forall fd: Fd :: Fds(task, fd) > 0 ==> Fds(task, fd) == 1 && fd in s.open && s.open[fd] == ByTask(t)
  }

  /** Every open descriptor has exactly one holder, and every held descriptor is open. */
  ghost predicate FdsOk(s: State) {
    && (forall fd | fd in s.open :: Holds(s, s.open[fd], fd))
    && s.root.fd in s.open && s.open[s.root.fd] == ByRoot
    && (forall a | a in s.heap :: s.heap[a].fd in s.open && s.open[s.heap[a].fd] == ByNode(a))
    && (forall fd | fd in s.handles :: fd in s.open && s.open[fd] == ByHandle)
    && (forall t | 0 <= t < |s.tasks| :: TaskFdsOpen(s, t, s.tasks[t]))
  }

  ghost predicate CtxOk(ctx: Context) {
    ctx.Listing? && !ctx.plus ==> ctx.got == []
  }

  /** A plain listing keeps no nodes; a forget returns positive counts; a new entry's
      parent is among the ids its request names. */
  ghost predicate TaskOk(task: Task) {
    match task
    case Resolve(_, ctx) => CtxOk(ctx)
    case Opened(_, ctx, _) => CtxOk(ctx)
    case Resolved(_, ctx, _) => CtxOk(ctx)
    case Held(_, ctx, _) => CtxOk(ctx)
    case Probing(_, ctx, _, _) => CtxOk(ctx)
    case Described(_, ctx, _) => CtxOk(ctx)
    case Dropping(_, ctx, _, _) => CtxOk(ctx) && ctx.Listing?
    case Send(plus, got) => CtxOk(Listing(plus, got))
    case Forgetting(batch) => forall f | f in batch :: f.nlookup > 0
    case Using(nodes, next, _) => next.Some? ==> next.value in nodes
    case _ => true
  }

  ghost predicate TasksOk(s: State) {
    forall t | 0 <= t < |s.tasks| :: TaskOk(s.tasks[t])
  }

  ghost predicate AccountOk(s: State) {
    CacheOk(s) && CountsOk(s) && KernelOk(s) && TasksOk(s)
  }

  ghost predicate Inv(s: State) {
    AccountOk(s) && FdsOk(s)
  }

  // ---- Sums over the requests

  lemma {:induction false} AllRefsReplace(tasks: seq<Task>, t: nat, task: Task, a: Addr)
    requires t < |tasks|
    ensures AllRefs(tasks[t := task], a) + Refs(tasks[t], a) == AllRefs(tasks, a) + Refs(task, a)
  {
    var last := |tasks| - 1;
    if t == last {
      assert tasks[t := task][..last] == tasks[..last];
    } else {
      assert tasks[t := task][..last] == tasks[..last][t := task];
      AllRefsReplace(tasks[..last], t, task, a);
    }
  }

  lemma {:induction false} AllRefsContains(tasks: seq<Task>, t: nat, a: Addr)
    requires t < |tasks|
    ensures Refs(tasks[t], a) <= AllRefs(tasks, a)
  {
    if t < |tasks| - 1 {
      AllRefsContains(tasks[..|tasks| - 1], t, a);
    }
  }

  lemma AllRefsAppend(tasks: seq<Task>, task: Task, a: Addr)
    ensures AllRefs(tasks + [task], a) == AllRefs(tasks, a) + Refs(task, a)
  {
    assert (tasks + [task])[..|tasks|] == tasks;
  }

  lemma {:induction false} TodoConcat(x: seq<Cleanup>, y: seq<Cleanup>, n: nat)
    ensures TodoRefs(x + y, n) == TodoRefs(x, n) + TodoRefs(y, n)
    ensures TodoFds(x + y, n) == TodoFds(x, n) + TodoFds(y, n)
  {
    if x == [] {
      assert x + y == y;
    } else {
      assert (x + y)[1..] == x[1..] + y;
      TodoConcat(x[1..], y, n);
    }
  }

  lemma {:induction false} TodoDrops(nodes: seq<Addr>, n: nat)
    ensures TodoRefs(Drops(nodes), n) == multiset(nodes)[n]
    ensures TodoFds(Drops(nodes), n) == 0
  {
    if nodes != [] {
      assert nodes == [nodes[0]] + nodes[1..];
      TodoDrops(nodes[1..], n);
    }
  }

  /** Leaving early keeps account of everything the context holds. */
  lemma ExitKeepsAccount(first: seq<Cleanup>, ctx: Context, n: nat)
    ensures TodoRefs(first + ExitOf(ctx), n) == TodoRefs(first, n) + CtxRefs(ctx, n)
    ensures TodoFds(first + ExitOf(ctx), n) == TodoFds(first, n) + CtxFds(ctx, n)
  {
    TodoConcat(first, ExitOf(ctx), n);
    match ctx {
      case Entry(file) =>
      case Listing(plus, got) =>
        TodoDrops(got, n);
        TodoConcat(Drops(got), Drops(got), n);
    }
  }

  // ---- Consequences of the invariant

  /** Whatever a request or the kernel refers to is a live object. */
  lemma CountedIsLive(s: State, a: Addr)
    requires CountsOk(s)
    ensures AllRefs(s.tasks, a) + Owed(s, a) > 0 ==> a in s.heap
  {
    assert CountAt(s, a) == AllRefs(s.tasks, a) + Owed(s, a);
  }

  lemma KnownIsLive(s: State, id: Addr)
    requires CountsOk(s) && Known(s, id)
    ensures Deref(s, id).Some?
  {
    CountedIsLive(s, id);
  }

  // ---- Each part of the invariant when one request moves on

  lemma TasksKept(s: State, s': State, t: nat, task: Task)
    requires t < |s.tasks| && s'.tasks == s.tasks[t := task]
    requires TasksOk(s) && TaskOk(task)
    ensures TasksOk(s')
  {}

  lemma KernelKept(s: State, s': State, t: nat, task: Task)
    requires t < |s.tasks| && s'.tasks == s.tasks[t := task] && s'.handles == s.handles
    requires KernelOk(s) && s.lookups <= s'.lookups && Names(task) <= Names(s.tasks[t])
    ensures KernelOk(s')
  {
    forall id | Known(s, id) ensures Known(s', id) {}
    forall i | 0 <= i < |s'.tasks| ensures NamesKnown(s', s'.tasks[i]) {
      assert NamesKnown(s, s.tasks[i]);
      assert NamesKnown(s, s.tasks[t]);
    }
  }

  /** The counts stay right if every object's count moves as the request's account
      and the kernel's do. */
  lemma CountsKept(s: State, s': State, t: nat, task: Task)
    requires t < |s.tasks| && s'.tasks == s.tasks[t := task] && CountsOk(s)
    requires forall a: Addr ::
      CountAt(s', a) + Refs(s.tasks[t], a) + Owed(s, a) == CountAt(s, a) + Refs(task, a) + Owed(s', a)
    ensures CountsOk(s')
  {
    forall a: Addr ensures CountAt(s', a) == AllRefs(s'.tasks, a) + Owed(s', a) {
      AllRefsReplace(s.tasks, t, task, a);
      assert CountAt(s, a) == AllRefs(s.tasks, a) + Owed(s, a);
    }
  }

  /** One request moves on: the account stays right when the counts of the objects
      move as the request's references and the kernel's do. */
  lemma AccountKept(s: State, s': State, t: nat, task: Task)
    requires AccountOk(s) && t < |s.tasks| && s'.tasks == s.tasks[t := task] && s'.handles == s.handles
    requires TaskOk(task) && Names(task) <= Names(s.tasks[t]) && s.lookups <= s'.lookups
    requires CacheOk(s')
    requires forall a: Addr ::
      CountAt(s', a) + Refs(s.tasks[t], a) + Owed(s, a) == CountAt(s, a) + Refs(task, a) + Owed(s', a)
    ensures AccountOk(s')
  {
    TasksKept(s, s', t, task);
    KernelKept(s, s', t, task);
    CountsKept(s, s', t, task);
  }

  /** A request moves on without touching descriptors. */
  lemma FdsKept(s: State, s': State, t: nat, task: Task)
    requires FdsOk(s) && t < |s.tasks| && s'.tasks == s.tasks[t := task]
    requires s'.root == s.root && s'.open == s.open && s'.heap == s.heap && s'.handles == s.handles
    requires forall fd: Fd :: Fds(task, fd) == Fds(s.tasks[t], fd)
    ensures FdsOk(s')
  {
    forall fd | fd in s'.open ensures Holds(s', s'.open[fd], fd) {
      assert Holds(s, s.open[fd], fd);
    }
    forall i | 0 <= i < |s'.tasks| ensures TaskFdsOpen(s', i, s'.tasks[i]) {
      assert TaskFdsOpen(s, i, s.tasks[i]);
    }
  }

  // ---- One lemma for each kind of atomic action

  /** A request moves on without touching anything shared. */
  lemma ControlKeeps(s: State, t: nat, task: Task)
    requires Inv(s) && t < |s.tasks| && TaskOk(task) && Names(task) <= Names(s.tasks[t])
    requires forall a: Addr :: Refs(task, a) == Refs(s.tasks[t], a)
    requires forall fd: Fd :: Fds(task, fd) == Fds(s.tasks[t], fd)
    ensures Inv(Goto(s, t, task))
  {
    var s' := Goto(s, t, task);
    AccountKept(s, s', t, task);
    FdsKept(s, s', t, task);
  }

  lemma OpenKeeps(s: State, t: nat, fd: Fd, task: Task)
    requires Inv(s) && t < |s.tasks| && TaskOk(task) && Names(task) <= Names(s.tasks[t])
    requires fd !in s.open
    requires forall a: Addr :: Refs(task, a) == Refs(s.tasks[t], a)
    requires forall f: Fd :: Fds(task, f) == Fds(s.tasks[t], f) + One(f == fd)
    ensures DoOpen(s, t, fd, task).Next? && Inv(DoOpen(s, t, fd, task).state)
  {
    var s' := DoOpen(s, t, fd, task).state;
    AccountKept(s, s', t, task);
    OpenKeepsFds(s, s', t, fd, task);
  }

  lemma OpenKeepsFds(s: State, s': State, t: nat, fd: Fd, task: Task)
    requires FdsOk(s) && t < |s.tasks| && fd !in s.open
    requires forall f: Fd :: Fds(task, f) == Fds(s.tasks[t], f) + One(f == fd)
    requires s' == s.(tasks := s.tasks[t := task], open := s.open[fd := ByTask(t)])
    ensures FdsOk(s')
  {
    assert TaskFdsOpen(s, t, s.tasks[t]);
    assert Fds(s.tasks[t], fd) == 0;
    forall f | f in s'.open ensures Holds(s', s'.open[f], f) {
      if f != fd { assert Holds(s, s.open[f], f); }
    }
    forall i | 0 <= i < |s'.tasks| ensures TaskFdsOpen(s', i, s'.tasks[i]) {
      assert TaskFdsOpen(s, i, s.tasks[i]);
    }
  }

  lemma CloseKeepsFds(s: State, s': State, t: nat, fd: Fd, task: Task)
    requires FdsOk(s) && t < |s.tasks|
    requires forall f: Fd :: Fds(s.tasks[t], f) == Fds(task, f) + One(f == fd)
    requires s'.tasks == s.tasks[t := task] && s'.open == s.open - {fd}
    requires s'.root == s.root && s'.heap == s.heap && s'.handles == s.handles
    ensures FdsOk(s')
  {
    assert TaskFdsOpen(s, t, s.tasks[t]);
    assert Fds(s.tasks[t], fd) > 0;
    forall f | f in s'.open ensures Holds(s', s'.open[f], f) {
      assert Holds(s, s.open[f], f);
    }
    forall i | 0 <= i < |s'.tasks| ensures TaskFdsOpen(s', i, s'.tasks[i]) {
      assert TaskFdsOpen(s, i, s.tasks[i]);
    }
  }

  lemma CloseKeeps(s: State, t: nat, fd: Fd, task: Task)
    requires Inv(s) && t < |s.tasks| && TaskOk(task) && Names(task) <= Names(s.tasks[t])
    requires forall a: Addr :: Refs(task, a) == Refs(s.tasks[t], a)
    requires forall f: Fd :: Fds(s.tasks[t], f) == Fds(task, f) + One(f == fd)
    ensures DoClose(s, t, fd, task).Next? && Inv(DoClose(s, t, fd, task).state)
  {
    assert TaskFdsOpen(s, t, s.tasks[t]);
    assert Fds(s.tasks[t], fd) > 0;
    var s' := DoClose(s, t, fd, task).state;
    AccountKept(s, s', t, task);
    CloseKeepsFds(s, s', t, fd, task);
  }

  // ---- Cache operations

  /** Inserting over an existing key: the count goes up, the duplicate descriptor is
      closed, and the request now refers to the object that was there. */
  lemma InsertHitKeeps(s: State, t: nat, parent: Addr, ctx: Context, inode: Inode, node: Addr)
    requires Inv(s) && t < |s.tasks| && s.tasks[t] == Resolved(parent, ctx, inode)
    requires inode.key in s.cache && s.cache[inode.key].refcnt + 1 < TWO_64
    ensures DoInsert(s, t, parent, ctx, inode, node).Next?
    ensures Inv(DoInsert(s, t, parent, ctx, inode, node).state)
  {
    TaskOwns(s, t, inode.fd);
    InsertHitResult(s, t, parent, ctx, inode, node);
    InsertHitAccount(s, t, parent, ctx, inode);
    InsertHitFds(s, t, parent, ctx, inode);
  }

  lemma InsertHitFds(s: State, t: nat, parent: Addr, ctx: Context, inode: Inode)
    requires FdsOk(s) && t < |s.tasks| && s.tasks[t] == Resolved(parent, ctx, inode)
    requires inode.key in s.cache && s.cache[inode.key].refcnt + 1 < TWO_64
    ensures FdsOk(Hit(s, t, parent, ctx, inode))
  {
    CloseKeepsFds(s, Hit(s, t, parent, ctx, inode), t, inode.fd, Held(parent, ctx, s.cache[inode.key].node));
  }

  ghost function Hit(s: State, t: nat, parent: Addr, ctx: Context, inode: Inode): State
    requires t < |s.tasks| && inode.key in s.cache && s.cache[inode.key].refcnt + 1 < TWO_64
  {
    s.(cache := s.cache[inode.key := Slot(s.cache[inode.key].refcnt + 1, s.cache[inode.key].node)],
       open := s.open - {inode.fd}, tasks := s.tasks[t := Held(parent, ctx, s.cache[inode.key].node)])
  }

  lemma InsertHitResult(s: State, t: nat, parent: Addr, ctx: Context, inode: Inode, node: Addr)
    requires t < |s.tasks| && inode.key in s.cache && s.cache[inode.key].refcnt + 1 < TWO_64
    requires inode.fd in s.open && s.open[inode.fd] == ByTask(t)
    ensures DoInsert(s, t, parent, ctx, inode, node) == Next(Hit(s, t, parent, ctx, inode))
  {}

  lemma InsertHitAccount(s: State, t: nat, parent: Addr, ctx: Context, inode: Inode)
    requires AccountOk(s) && t < |s.tasks| && s.tasks[t] == Resolved(parent, ctx, inode)
    requires inode.key in s.cache && s.cache[inode.key].refcnt + 1 < TWO_64
    ensures AccountOk(Hit(s, t, parent, ctx, inode))
  {
    assert TaskOk(s.tasks[t]);
    BumpCounts(s, Hit(s, t, parent, ctx, inode), inode.key);
    AccountKept(s, Hit(s, t, parent, ctx, inode), t, Held(parent, ctx, s.cache[inode.key].node));
  }

  /** One more reference to a cached key counts at exactly the object cached there. */
  lemma BumpCounts(s: State, s': State, key: Key)
    requires CacheOk(s) && key in s.cache && s.cache[key].refcnt + 1 < TWO_64
    requires s'.heap == s.heap && s'.cache == s.cache[key := Slot(s.cache[key].refcnt + 1, s.cache[key].node)]
    ensures CacheOk(s')
    ensures forall a: Addr :: CountAt(s', a) == CountAt(s, a) + One(a == s.cache[key].node)
  {
    forall a: Addr ensures CountAt(s', a) == CountAt(s, a) + One(a == s.cache[key].node) {
      assert a in s.heap && s.heap[a].key == key ==> a == s.cache[key].node;
    }
  }

  /** Inserting a new key: the request's inode becomes the cached object. */
  lemma InsertNewKeeps(s: State, t: nat, parent: Addr, ctx: Context, inode: Inode, node: Addr)
    requires Inv(s) && t < |s.tasks| && s.tasks[t] == Resolved(parent, ctx, inode)
    requires inode.key !in s.cache && node !in s.heap && node != ROOT_ID
    ensures DoInsert(s, t, parent, ctx, inode, node).Next?
    ensures Inv(DoInsert(s, t, parent, ctx, inode, node).state)
  {
    TaskOwns(s, t, inode.fd);
    var s' := DoInsert(s, t, parent, ctx, inode, node).state;
    InsertNewAccount(s, s', t, parent, ctx, inode, node);
    AdoptKeepsFds(s, s', t, node, inode.(born := s.clock), Held(parent, ctx, node));
  }

  lemma InsertNewAccount(s: State, s': State, t: nat, parent: Addr, ctx: Context, inode: Inode, node: Addr)
    requires AccountOk(s) && t < |s.tasks| && s.tasks[t] == Resolved(parent, ctx, inode)
    requires inode.key !in s.cache && node !in s.heap && node != ROOT_ID
    requires s' == s.(cache := s.cache[inode.key := Slot(1, node)], heap := s.heap[node := inode.(born := s.clock)],
                      open := s'.open, tasks := s.tasks[t := Held(parent, ctx, node)], clock := s'.clock)
    ensures AccountOk(s')
  {
    assert TaskOk(s.tasks[t]);
    AdoptCounts(s, s', node, inode.(born := s.clock));
    AccountKept(s, s', t, Held(parent, ctx, node));
  }

  lemma AdoptCounts(s: State, s': State, node: Addr, inode: Inode)
    requires CacheOk(s) && inode.key !in s.cache && node !in s.heap && node != ROOT_ID
    requires s'.heap == s.heap[node := inode] && s'.cache == s.cache[inode.key := Slot(1, node)]
    ensures CacheOk(s')
    ensures forall a: Addr :: CountAt(s', a) == CountAt(s, a) + One(a == node)
  {
    forall a: Addr ensures CountAt(s', a) == CountAt(s, a) + One(a == node) {
      assert a in s.heap ==> s.heap[a].key != inode.key;
    }
  }

  lemma TaskOwns(s: State, t: nat, fd: Fd)
    requires FdsOk(s) && t < |s.tasks| && Fds(s.tasks[t], fd) > 0
    ensures fd in s.open && s.open[fd] == ByTask(t)
  {
    assert TaskFdsOpen(s, t, s.tasks[t]);
  }

  lemma AdoptKeepsFds(s: State, s': State, t: nat, node: Addr, inode: Inode, task: Task)
    requires FdsOk(s) && t < |s.tasks| && node !in s.heap
    requires forall f: Fd :: Fds(s.tasks[t], f) == Fds(task, f) + One(f == inode.fd)
    requires s' == s.(tasks := s.tasks[t := task], cache := s'.cache, clock := s'.clock,
                      heap := s.heap[node := inode], open := s.open[inode.fd := ByNode(node)])
    ensures FdsOk(s')
  {
    TaskOwns(s, t, inode.fd);
    forall f | f in s'.open ensures Holds(s', s'.open[f], f) {
      if f != inode.fd { assert Holds(s, s.open[f], f); }
    }
    forall i | 0 <= i < |s'.tasks| ensures TaskFdsOpen(s', i, s'.tasks[i]) {
      assert TaskFdsOpen(s, i, s.tasks[i]);
    }
  }

  /** A request only refers to live objects, and never to the root's. */
  lemma ReferredIsLive(s: State, t: nat, node: Addr)
    requires AccountOk(s) && t < |s.tasks| && Refs(s.tasks[t], node) > 0
    ensures node in s.heap && node != ROOT_ID
    ensures s.heap[node].key in s.cache && s.cache[s.heap[node].key].node == node
    ensures Refs(s.tasks[t], node) <= CountAt(s, node)
  {
    AllRefsContains(s.tasks, t, node);
    CountedIsLive(s, node);
    assert CountAt(s, node) == AllRefs(s.tasks, node) + Owed(s, node);
  }

  lemma RefKeeps(s: State, t: nat, node: Addr, task: Task)
    requires Inv(s) && t < |s.tasks| && TaskOk(task) && Names(task) <= Names(s.tasks[t])
    requires Refs(s.tasks[t], node) > 0
    requires forall a: Addr :: Refs(task, a) == Refs(s.tasks[t], a) + One(a == node)
    requires forall f: Fd :: Fds(task, f) == Fds(s.tasks[t], f)
    ensures node in s.heap
    ensures CountAt(s, node) + 1 == TWO_64 ==> DoRef(s, t, node, task) == Fault(Overflow)
    ensures CountAt(s, node) + 1 < TWO_64 ==> DoRef(s, t, node, task).Next? && Inv(DoRef(s, t, node, task).state)
  {
    ReferredIsLive(s, t, node);
    RefResult(s, t, node, task);
    if CountAt(s, node) + 1 < TWO_64 {
      var s' := Bump(s, t, node, task);
      RefAccount(s, s', t, node, task);
      FdsKept(s, s', t, task);
    }
  }

  ghost function Bump(s: State, t: nat, node: Addr, task: Task): State
    requires t < |s.tasks| && node in s.heap && CountAt(s, node) + 1 < TWO_64
  {
    s.(tasks := s.tasks[t := task], cache := s.cache[s.heap[node].key := Slot(CountAt(s, node) + 1, node)])
  }

  lemma RefResult(s: State, t: nat, node: Addr, task: Task)
    requires t < |s.tasks| && node != ROOT_ID && node in s.heap && s.heap[node].key in s.cache
    requires s.cache[s.heap[node].key].node == node
    ensures CountAt(s, node) + 1 == TWO_64 ==> DoRef(s, t, node, task) == Fault(Overflow)
    ensures CountAt(s, node) + 1 < TWO_64 ==> DoRef(s, t, node, task) == Next(Bump(s, t, node, task))
  {}

  lemma RefAccount(s: State, s': State, t: nat, node: Addr, task: Task)
    requires AccountOk(s) && t < |s.tasks| && TaskOk(task) && Names(task) <= Names(s.tasks[t])
    requires node in s.heap && CountAt(s, node) + 1 < TWO_64
    requires forall a: Addr :: Refs(task, a) == Refs(s.tasks[t], a) + One(a == node)
    requires s' == Bump(s, t, node, task)
    ensures AccountOk(s')
  {
    BumpCounts(s, s', s.heap[node].key);
    AccountKept(s, s', t, task);
  }

  lemma UnrefKeeps(s: State, t: nat, node: Addr, n: uint64, task: Task)
    requires Inv(s) && t < |s.tasks| && TaskOk(task) && Names(task) <= Names(s.tasks[t]) && n > 0
    requires forall a: Addr :: Refs(s.tasks[t], a) == Refs(task, a) + if a == node then n else 0
    requires forall f: Fd :: Fds(task, f) == Fds(s.tasks[t], f)
    ensures node in s.heap
    ensures DoUnref(s, t, node, n, task).Next? && Inv(DoUnref(s, t, node, n, task).state)
  {
    ReferredIsLive(s, t, node);
    if CountAt(s, node) == n {
      NodeOwns(s, node);
      var s' := Erase(s, t, node, task);
      LastUnref(s, t, node, n, task);
      EraseAccount(s, s', t, node, n, task);
      EraseKeepsFds(s, s', t, node, task);
    } else {
      var s' := Lower(s, t, node, n, task);
      NotLastUnref(s, t, node, n, task);
      DropAccount(s, s', t, node, n, task);
      FdsKept(s, s', t, task);
    }
  }

  lemma NodeOwns(s: State, node: Addr)
    requires FdsOk(s) && node in s.heap
    ensures s.heap[node].fd in s.open && s.open[s.heap[node].fd] == ByNode(node)
  {}

  ghost function Erase(s: State, t: nat, node: Addr, task: Task): State
    requires t < |s.tasks| && node in s.heap
  {
    s.(cache := s.cache - {s.heap[node].key}, heap := s.heap - {node},
       open := s.open - {s.heap[node].fd}, tasks := s.tasks[t := task])
  }

  ghost function Lower(s: State, t: nat, node: Addr, n: uint64, task: Task): State
    requires t < |s.tasks| && node in s.heap && n <= CountAt(s, node) < TWO_64
  {
    s.(tasks := s.tasks[t := task], cache := s.cache[s.heap[node].key := Slot(CountAt(s, node) - n, node)])
  }

  lemma NotLastUnref(s: State, t: nat, node: Addr, n: uint64, task: Task)
    requires t < |s.tasks| && node != ROOT_ID && node in s.heap && s.heap[node].key in s.cache
    requires s.cache[s.heap[node].key].node == node && n < s.cache[s.heap[node].key].refcnt
    ensures DoUnref(s, t, node, n, task) == Next(Lower(s, t, node, n, task))
  {}

  lemma LastUnref(s: State, t: nat, node: Addr, n: uint64, task: Task)
    requires t < |s.tasks| && node != ROOT_ID && node in s.heap && s.heap[node].key in s.cache
    requires s.cache[s.heap[node].key] == Slot(n, node)
    requires s.heap[node].fd in s.open && s.open[s.heap[node].fd] == ByNode(node)
    ensures DoUnref(s, t, node, n, task) == Next(Erase(s, t, node, task))
  {}

  lemma DropAccount(s: State, s': State, t: nat, node: Addr, n: uint64, task: Task)
    requires AccountOk(s) && t < |s.tasks| && TaskOk(task) && Names(task) <= Names(s.tasks[t])
    requires node in s.heap && 0 < n < CountAt(s, node)
    requires forall a: Addr :: Refs(s.tasks[t], a) == Refs(task, a) + if a == node then n else 0
    requires s' == Lower(s, t, node, n, task)
    ensures AccountOk(s')
  {
    DropCounts(s, s', node, n);
    AccountKept(s, s', t, task);
  }

  lemma DropCounts(s: State, s': State, node: Addr, n: uint64)
    requires CacheOk(s) && node in s.heap && 0 < n < s.cache[s.heap[node].key].refcnt
    requires s'.heap == s.heap
    requires s'.cache == s.cache[s.heap[node].key := Slot(s.cache[s.heap[node].key].refcnt - n, node)]
    ensures CacheOk(s')
    ensures forall a: Addr :: CountAt(s', a) + (if a == node then n else 0) == CountAt(s, a)
  {
    forall a: Addr ensures CountAt(s', a) + (if a == node then n else 0) == CountAt(s, a) {
      assert a in s.heap && s.heap[a].key == s.heap[node].key ==> a == node;
    }
  }

  lemma EraseAccount(s: State, s': State, t: nat, node: Addr, n: uint64, task: Task)
    requires AccountOk(s) && t < |s.tasks| && TaskOk(task) && Names(task) <= Names(s.tasks[t])
    requires node in s.heap && CountAt(s, node) == n
    requires forall a: Addr :: Refs(s.tasks[t], a) == Refs(task, a) + if a == node then n else 0
    requires s' == Erase(s, t, node, task)
    ensures AccountOk(s')
  {
    EraseCounts(s, s', node);
    AccountKept(s, s', t, task);
  }

  lemma EraseCounts(s: State, s': State, node: Addr)
    requires CacheOk(s) && node in s.heap
    requires s'.heap == s.heap - {node} && s'.cache == s.cache - {s.heap[node].key}
    ensures CacheOk(s')
    ensures forall a: Addr :: CountAt(s', a) + (if a == node then CountAt(s, a) else 0) == CountAt(s, a)
  {
    forall a: Addr ensures CountAt(s', a) + (if a == node then CountAt(s, a) else 0) == CountAt(s, a) {
      assert a in s.heap && s.heap[a].key == s.heap[node].key ==> a == node;
    }
  }

  lemma EraseKeepsFds(s: State, s': State, t: nat, node: Addr, task: Task)
    requires FdsOk(s) && t < |s.tasks| && node in s.heap
    requires forall f: Fd :: Fds(s.tasks[t], f) == Fds(task, f)
    requires s' == s.(tasks := s.tasks[t := task], cache := s'.cache,
                      heap := s.heap - {node}, open := s.open - {s.heap[node].fd})
    ensures FdsOk(s')
  {
    forall f | f in s'.open ensures Holds(s', s'.open[f], f) {
      assert Holds(s, s.open[f], f);
    }
    forall i | 0 <= i < |s'.tasks| ensures TaskFdsOpen(s', i, s'.tasks[i]) {
      assert TaskFdsOpen(s, i, s.tasks[i]);
    }
  }

  // ---- Replies

  /** The kernel takes over references the request held. */
  lemma GrantKeeps(s: State, t: nat, counted: multiset<Addr>, others: multiset<Addr>, task: Task)
    requires Inv(s) && t < |s.tasks| && TaskOk(task) && Names(task) <= Names(s.tasks[t])
    requires forall a: Addr :: Refs(s.tasks[t], a) == Refs(task, a) + counted[a] + others[a]
    requires forall f: Fd :: Fds(task, f) == Fds(s.tasks[t], f)
    ensures Inv(DoGrant(s.(uncounted := s.uncounted + others), t, counted, task))
  {
    var s' := DoGrant(s.(uncounted := s.uncounted + others), t, counted, task);
    AccountKept(s, s', t, task);
    FdsKept(s, s', t, task);
  }

  /** The kernel takes over an open file along with the reply: the request only lets
      go of the descriptor. */
  lemma HandOverKeeps(s: State, t: nat, fd: Fd, node: Addr, task: Task)
    requires Inv(s) && t < |s.tasks| && Known(s, node)
    requires TaskOk(task) && Names(task) <= Names(s.tasks[t])
    requires forall a: Addr :: Refs(task, a) == Refs(s.tasks[t], a)
    requires forall f: Fd :: Fds(s.tasks[t], f) == Fds(task, f) + One(f == fd)
    ensures Inv(DoHandOver(Goto(s, t, task), Some(fd), node))
  {
    var s' := DoHandOver(Goto(s, t, task), Some(fd), node);
    HandOverAccount(s, s', t, fd, node, task);
    HandOverKeepsFds(s, s', t, fd, node, task);
  }

  lemma HandOverAccount(s: State, s': State, t: nat, fd: Fd, node: Addr, task: Task)
    requires AccountOk(s) && t < |s.tasks| && Known(s, node)
    requires TaskOk(task) && Names(task) <= Names(s.tasks[t])
    requires forall a: Addr :: Refs(task, a) == Refs(s.tasks[t], a)
    requires s' == s.(tasks := s.tasks[t := task], open := s'.open, handles := s.handles[fd := node])
    ensures AccountOk(s')
  {
    var s1 := s'.(handles := s.handles);
    AccountKept(s, s1, t, task);
    forall i | 0 <= i < |s'.tasks| ensures NamesKnown(s', s'.tasks[i]) {
      assert NamesKnown(s1, s1.tasks[i]);
    }
    CountsSame(s1, s');
  }

  lemma CountsSame(s: State, s': State)
    requires CountsOk(s)
    requires s'.heap == s.heap && s'.cache == s.cache && s'.tasks == s.tasks
    requires s'.lookups == s.lookups && s'.uncounted == s.uncounted
    ensures CountsOk(s')
  {
    forall a: Addr ensures CountAt(s', a) == AllRefs(s'.tasks, a) + Owed(s', a) {
      assert CountAt(s, a) == AllRefs(s.tasks, a) + Owed(s, a);
    }
  }

  lemma HandOverKeepsFds(s: State, s': State, t: nat, fd: Fd, node: Addr, task: Task)
    requires FdsOk(s) && t < |s.tasks|
    requires forall f: Fd :: Fds(s.tasks[t], f) == Fds(task, f) + One(f == fd)
    requires s' == s.(tasks := s.tasks[t := task], open := s.open[fd := ByHandle], handles := s.handles[fd := node])
    ensures FdsOk(s')
  {
    assert Fds(s.tasks[t], fd) > 0;
    TaskOwns(s, t, fd);
    forall f | f in s'.open ensures Holds(s', s'.open[f], f) {
      if f != fd { assert Holds(s, s.open[f], f); }
    }
    forall i | 0 <= i < |s'.tasks| ensures TaskFdsOpen(s', i, s'.tasks[i]) {
      HandOverKeepsTask(s, s', t, fd, task, i);
    }
  }

  lemma HandOverKeepsTask(s: State, s': State, t: nat, fd: Fd, task: Task, i: nat)
    requires t < |s.tasks| && i < |s.tasks| && TaskFdsOpen(s, i, s.tasks[i]) && fd in s.open && s.open[fd] == ByTask(t)
    requires forall f: Fd :: Fds(s.tasks[t], f) == Fds(task, f) + One(f == fd)
    requires s'.tasks == s.tasks[t := task] && s'.open == s.open[fd := ByHandle]
    ensures TaskFdsOpen(s', i, s'.tasks[i])
  {}

  // ---- The kernel's own actions

  /** A request arrives that holds no references or descriptors yet. */
  lemma ArriveKeeps(s: State, task: Task)
    requires Inv(s) && TaskOk(task) && NamesKnown(s, task)
    requires forall n: nat :: Refs(task, n) == 0 && Fds(task, n) == 0
    ensures Inv(Arrive(s, task))
  {
    var s' := Arrive(s, task);
    forall a: Addr ensures CountAt(s', a) == AllRefs(s'.tasks, a) + Owed(s', a) {
      AllRefsAppend(s.tasks, task, a);
      assert CountAt(s, a) == AllRefs(s.tasks, a) + Owed(s, a);
    }
    forall i | 0 <= i < |s'.tasks| ensures NamesKnown(s', s'.tasks[i]) {
      if i < |s.tasks| { assert NamesKnown(s, s.tasks[i]); }
    }
    ArriveKeepsFds(s, s', task);
  }

  lemma ArriveKeepsFds(s: State, s': State, task: Task)
    requires FdsOk(s) && s' == Arrive(s.(lookups := s'.lookups), task)
    requires forall f: Fd :: Fds(task, f) == 0
    ensures FdsOk(s')
  {
    forall f | f in s'.open ensures Holds(s', s'.open[f], f) {
      assert Holds(s, s.open[f], f);
    }
    forall i | 0 <= i < |s'.tasks| ensures TaskFdsOpen(s', i, s'.tasks[i]) {
      if i < |s.tasks| { assert TaskFdsOpen(s, i, s.tasks[i]); }
    }
  }

  lemma ArriveKeepsCounts(s: State, s': State, task: Task)
    requires CountsOk(s) && s'.tasks == s.tasks + [task] && s'.heap == s.heap && s'.cache == s.cache
    requires forall a: Addr :: Refs(task, a) + Owed(s', a) == Owed(s, a)
    ensures CountsOk(s')
  {
    forall a: Addr ensures CountAt(s', a) == AllRefs(s'.tasks, a) + Owed(s', a) {
      AllRefsAppend(s.tasks, task, a);
      assert CountAt(s, a) == AllRefs(s.tasks, a) + Owed(s, a);
    }
  }

  lemma ReleaseKeeps(s: State, s': State, fd: Fd)
    requires Inv(s) && fd in s.handles
    requires s' == s.(tasks := s.tasks + [Releasing(s.handles[fd], fd)], handles := s.handles - {fd},
                      open := s.open[fd := ByTask(|s.tasks|)])
    ensures Inv(s')
  {
    ReleaseAccount(s, s', fd);
    ReleaseKeepsFds(s, s', fd, Releasing(s.handles[fd], fd));
  }

  lemma ReleaseAccount(s: State, s': State, fd: Fd)
    requires AccountOk(s) && fd in s.handles
    requires s' == s.(tasks := s.tasks + [Releasing(s.handles[fd], fd)], handles := s.handles - {fd}, open := s'.open)
    ensures AccountOk(s')
  {
    var task := Releasing(s.handles[fd], fd);
    assert Known(s, s.handles[fd]);
    forall i | 0 <= i < |s'.tasks| ensures NamesKnown(s', s'.tasks[i]) {
      if i < |s.tasks| { assert NamesKnown(s, s.tasks[i]); }
    }
    ArriveKeepsCounts(s, s', task);
  }

  lemma ReleaseKeepsFds(s: State, s': State, fd: Fd, task: Task)
    requires FdsOk(s) && fd in s.handles
    requires forall f: Fd :: Fds(task, f) == One(f == fd)
    requires s' == s.(tasks := s.tasks + [task], handles := s.handles - {fd}, open := s.open[fd := ByTask(|s.tasks|)])
    ensures FdsOk(s')
  {
    forall f | f in s'.open ensures Holds(s', s'.open[f], f) {
      if f != fd { assert Holds(s, s.open[f], f); }
    }
    forall i | 0 <= i < |s'.tasks| ensures TaskFdsOpen(s', i, s'.tasks[i]) {
      if i < |s.tasks| { assert TaskFdsOpen(s, i, s.tasks[i]); }
    }
  }

  lemma {:induction false} BatchNames(batch: seq<Forget>, a: Addr)
    ensures BatchRefs(batch)[a] > 0 ==> exists f :: f in batch && f.node == a
  {
    if batch != [] {
      BatchNames(batch[1..], a);
      if BatchRefs(batch)[a] > 0 {
        if batch[0].node == a {
          assert batch[0] in batch;
        } else {
          var f :| f in batch[1..] && f.node == a;
          assert f in batch;
        }
      }
    }
  }

  /** Forgetting never takes the last lookup of an id that is still in use. */
  lemma ForgetKeepsKnown(s: State, batch: seq<Forget>, id: Addr)
    requires MayForget(s, batch) && Known(s, id) && Pinned(s, id)
    ensures Known(s.(lookups := s.lookups - BatchRefs(batch)), id)
  {
    BatchNames(batch, id);
  }

  lemma ForgetKeeps(s: State, s': State, batch: seq<Forget>)
    requires Inv(s) && MayForget(s, batch)
    requires s' == Arrive(s.(lookups := s.lookups - BatchRefs(batch)), Forgetting(batch))
    ensures Inv(s')
  {
    ForgetKeepsKernel(s, s', batch);
    ArriveKeepsTasks(s, s', Forgetting(batch));
    ForgetKeepsCounts(s, s', Forgetting(batch), BatchRefs(batch));
    ArriveKeepsFds(s, s', Forgetting(batch));
  }

  lemma ArriveKeepsTasks(s: State, s': State, task: Task)
    requires TasksOk(s) && TaskOk(task) && s'.tasks == s.tasks + [task]
    ensures TasksOk(s')
  {}

  lemma ForgetKeepsCounts(s: State, s': State, task: Task, refs: multiset<Addr>)
    requires CountsOk(s) && refs <= s.lookups && forall a: Addr :: Refs(task, a) == refs[a]
    requires s' == Arrive(s.(lookups := s.lookups - refs), task)
    ensures CountsOk(s')
  {
    forall a: Addr ensures Refs(task, a) + Owed(s', a) == Owed(s, a) {
      ForgetReturns(s.lookups, refs, a);
    }
    ArriveKeepsCounts(s, s', task);
  }

  lemma ForgetReturns(lookups: multiset<Addr>, refs: multiset<Addr>, a: Addr)
    requires refs <= lookups
    ensures refs[a] + (lookups - refs)[a] == lookups[a]
  {
    assert lookups == refs + (lookups - refs);
  }

  lemma ForgetKeepsKernel(s: State, s': State, batch: seq<Forget>)
    requires KernelOk(s) && MayForget(s, batch)
    requires s' == Arrive(s.(lookups := s.lookups - BatchRefs(batch)), Forgetting(batch))
    ensures KernelOk(s')
  {
    forall i | 0 <= i < |s'.tasks| ensures NamesKnown(s', s'.tasks[i]) {
      if i < |s.tasks| {
        assert NamesKnown(s, s.tasks[i]);
        forall id | id in Names(s.tasks[i]) ensures Known(s', id) {
          ForgetKeepsKnown(s, batch, id);
        }
      }
    }
    forall fd | fd in s'.handles ensures Known(s', s'.handles[fd]) {
      ForgetKeepsKnown(s, batch, s.handles[fd]);
    }
  }
}
