/** What holds over whole runs of the protocol, from start-up on. */
module ProtocolRuns {
  import opened Options
  import opened RefCounts
  import opened Protocol
  import opened ProtocolInvariant
  import opened ProtocolSafety

  lemma InitOk(root: Inode)
    ensures Inv(Init(root))
  {}

  lemma ExecOne(s: State, steps: seq<Step>)
    requires steps != [] && Exec(s, steps[0]).Next?
    ensures ExecAll(s, steps) == ExecAll(Exec(s, steps[0]).state, steps[1..])
  {}

  lemma {:induction false} ExecAllConcat(s: State, xs: seq<Step>, ys: seq<Step>)
    ensures ExecAll(s, xs + ys) == (match ExecAll(s, xs) case Next(s') => ExecAll(s', ys) case other => other)
    decreases |xs|
  {
    if xs == [] {
      assert xs + ys == ys;
    } else {
      assert (xs + ys)[1..] == xs[1..] + ys;
      match Exec(s, xs[0]) {
        case Next(s') => ExecAllConcat(s', xs[1..], ys);
        case _ =>
      }
    }
  }

  // ---- Safety

  /** The run passes through a state with 2^64 - 1 references to one object. */
  ghost predicate ReachesLimit(s: State, steps: seq<Step>)
    decreases |steps|
  {
    AtLimit(s) || (steps != [] && Exec(s, steps[0]).Next? && ReachesLimit(Exec(s, steps[0]).state, steps[1..]))
  }

  /** Somewhere in the run a `WriteBuf` that has been answered reads an inode that is gone. */
  predicate MeetsStaleRead(s: State, steps: seq<Step>)
    decreases |steps|
  {
    && steps != []
    && (ReadsStale(s, steps[0])
        || (Exec(s, steps[0]).Next? && MeetsStaleRead(Exec(s, steps[0]).state, steps[1..])))
  }

  /** From a good state a run stays good, and stops only at a stale read or at a count
      about to wrap. */
  lemma {:induction false} RunStaysSafe(s: State, steps: seq<Step>)
    requires Inv(s)
    ensures ExecAll(s, steps).Next? ==> Inv(ExecAll(s, steps).state)
    ensures ExecAll(s, steps) == Fault(Dangling) <==> MeetsStaleRead(s, steps)
    ensures ExecAll(s, steps).Fault? && !MeetsStaleRead(s, steps) ==>
      ExecAll(s, steps).why == Overflow && ReachesLimit(s, steps)
    decreases |steps|
  {
    if steps != [] {
      StepSafe(s, steps[0]);
      if Exec(s, steps[0]).Next? {
        RunStaysSafe(Exec(s, steps[0]).state, steps[1..]);
      }
    }
  }

  /** A run from start-up dereferences what is not there exactly when an answered
      `WriteBuf` does.  Nothing else dangles in any run, no cache entry is missing, no
      CHECK in `Unref` fails and no descriptor is closed by another than its owner. */
  lemma WhenRunsFault(root: Inode, steps: seq<Step>)
    ensures ExecAll(Init(root), steps) == Fault(Dangling) <==> MeetsStaleRead(Init(root), steps)
    ensures ExecAll(Init(root), steps).Fault? && !MeetsStaleRead(Init(root), steps) ==>
      ExecAll(Init(root), steps).why == Overflow && ReachesLimit(Init(root), steps)
  {
    InitOk(root);
    RunStaysSafe(Init(root), steps);
  }

  lemma ReachableIsGood(root: Inode, steps: seq<Step>, s: State)
    requires ExecAll(Init(root), steps) == Next(s)
    ensures Inv(s)
  {
    InitOk(root);
    RunStaysSafe(Init(root), steps);
  }

  /** The global reference invariant, in every reachable state. */
  lemma CountsEqualReferences(root: Inode, steps: seq<Step>, s: State)
    requires ExecAll(Init(root), steps) == Next(s)
    ensures forall k | k in s.cache ::
      s.cache[k].refcnt == AllRefs(s.tasks, s.cache[k].node) + Owed(s, s.cache[k].node)
    ensures forall a: Addr :: a in s.heap <==> AllRefs(s.tasks, a) + Owed(s, a) > 0
    ensures forall k: Key :: k in s.cache <==>
      exists a | a in s.heap :: s.heap[a].key == k && AllRefs(s.tasks, a) + Owed(s, a) > 0
  {
    ReachableIsGood(root, steps, s);
    forall a: Addr ensures a in s.heap <==> AllRefs(s.tasks, a) + Owed(s, a) > 0 {
      assert CountAt(s, a) == AllRefs(s.tasks, a) + Owed(s, a);
    }
    forall k | k in s.cache ensures s.cache[k].refcnt == AllRefs(s.tasks, s.cache[k].node) + Owed(s, s.cache[k].node) {
      assert CountAt(s, s.cache[k].node) == s.cache[k].refcnt;
    }
  }

  /** Every id the kernel may name, every id it has a file open on, and every pointer
      a running handler holds resolves to a live object. */
  lemma NoDanglingId(root: Inode, steps: seq<Step>, s: State)
    requires ExecAll(Init(root), steps) == Next(s)
    ensures forall id: Addr :: Known(s, id) ==> Deref(s, id).Some?
    ensures forall fd | fd in s.handles :: Deref(s, s.handles[fd]).Some?
    ensures forall t, a: Addr | 0 <= t < |s.tasks| && Refs(s.tasks[t], a) > 0 :: a in s.heap
    ensures forall t, id | 0 <= t < |s.tasks| && id in Names(s.tasks[t]) :: Deref(s, id).Some?
  {
    ReachableIsGood(root, steps, s);
    forall id: Addr | Known(s, id) ensures Deref(s, id).Some? {
      KnownIsLive(s, id);
    }
    forall t, a: Addr | 0 <= t < |s.tasks| && Refs(s.tasks[t], a) > 0 ensures a in s.heap {
      NodeIsLive(s, t, a);
    }
    forall t, id | 0 <= t < |s.tasks| && id in Names(s.tasks[t]) ensures Deref(s, id).Some? {
      NamedIsLive(s, t, id);
    }
  }

  // ---- Identity

  ghost predicate SameObjects(s: State, s': State) {
    && s'.root == s.root
    && (forall a | a in s.heap && a in s'.heap :: s'.heap[a] == s.heap[a])
    && (forall k | k in s.cache && k in s'.cache :: s'.cache[k].node == s.cache[k].node)
    && s.clock <= s'.clock
    && (forall a | a in s'.heap && a !in s.heap :: s.clock <= s'.heap[a].born < s'.clock)
  }

  ghost predicate KeepsObjects(s: State, out: Outcome) {
    out.Next? ==> SameObjects(s, out.state)
  }

  /** Only request `t` moves. */
  ghost predicate OnlyTask(s: State, t: nat, s': State) {
    t < |s.tasks| && |s'.tasks| == |s.tasks| && s'.tasks == s.tasks[t := s'.tasks[t]]
  }

  /** The kernel gets nothing. */
  ghost predicate NothingGranted(s: State, s': State) {
    s'.handles == s.handles && s'.lookups == s.lookups && s'.uncounted == s.uncounted
  }

  ghost predicate Silent(s: State, t: nat, out: Outcome) {
    out.Next? ==> OnlyTask(s, t, out.state) && NothingGranted(s, out.state)
  }

  lemma RefKeepsObjects(s: State, t: nat, node: Addr, task: Task)
    requires t < |s.tasks|
    ensures KeepsObjects(s, DoRef(s, t, node, task))
  {}

  lemma RefSilent(s: State, t: nat, node: Addr, task: Task)
    requires t < |s.tasks|
    ensures Silent(s, t, DoRef(s, t, node, task)) && !DoRef(s, t, node, task).Disabled?
    ensures DoRef(s, t, node, task).Next? ==> DoRef(s, t, node, task).state.tasks[t] == task
  {}

  lemma UnrefKeepsObjects(s: State, t: nat, node: Addr, n: uint64, task: Task)
    requires t < |s.tasks|
    ensures KeepsObjects(s, DoUnref(s, t, node, n, task))
  {
    if Deref(s, node).Some? {
      UnrefKeepsNodes(s.cache, Deref(s, node).value.key, n);
    }
  }

  lemma CloseTouchesOpenOnly(s: State, fd: Fd, holder: Holder)
    ensures var out := CloseFd(s, fd, holder); out.Some? ==> out.value == s.(open := out.value.open)
  {}

  lemma UnrefSilent(s: State, t: nat, node: Addr, n: uint64, task: Task)
    requires t < |s.tasks|
    ensures Silent(s, t, DoUnref(s, t, node, n, task)) && !DoUnref(s, t, node, n, task).Disabled?
    ensures DoUnref(s, t, node, n, task).Next? ==> DoUnref(s, t, node, n, task).state.tasks[t] == task
  {
    if Deref(s, node).Some? && Unref(s.cache, Deref(s, node).value.key, n).Updated? {
      var key, cache := Deref(s, node).value.key, Unref(s.cache, Deref(s, node).value.key, n).cache;
      if key !in cache && s.cache[key].node in s.heap {
        CloseTouchesOpenOnly(s.(cache := cache), s.heap[s.cache[key].node].fd, ByNode(s.cache[key].node));
      }
    }
  }

  lemma InsertKeepsObjects(s: State, t: nat, parent: Addr, ctx: Context, inode: Inode, node: Addr)
    requires t < |s.tasks|
    ensures KeepsObjects(s, DoInsert(s, t, parent, ctx, inode, node))
  {}

  lemma InsertSilent(s: State, t: nat, parent: Addr, ctx: Context, inode: Inode, node: Addr)
    requires t < |s.tasks|
    ensures var out := DoInsert(s, t, parent, ctx, inode, node);
      && Silent(s, t, out)
      && (out.Disabled? ==> node in s.heap || node == ROOT_ID)
      && (out.Next? ==>
            out.state.tasks[t].Held? && out.state.tasks[t].parent == parent && out.state.tasks[t].ctx == ctx)
  {}

  /** The order in which a request can pass through its states. */
  predicate Follows(task: Task, next: Task) {
    match task
    case CreateFile(parent) =>
      || next == Unwind([])
      || (next.Resolve? && next.parent == parent && next.ctx.Entry? && next.ctx.file.Some?)
    case Resolve(parent, ctx) =>
      || next == Unwind(ExitOf(ctx))
      || (next.Opened? && next.parent == parent && next.ctx == ctx)
      || (ctx.Listing? && next == Send(ctx.plus, ctx.got))
    case Opened(parent, ctx, fd) =>
      next == Unwind([Close(fd)] + ExitOf(ctx)) || (next.Resolved? && next.parent == parent && next.ctx == ctx)
    case Resolved(parent, ctx, _) => next.Held? && next.parent == parent && next.ctx == ctx
    case Held(parent, ctx, node) =>
      || next == Unwind([Drop(node)] + ExitOf(ctx))
      || next == Described(parent, ctx, node)
      || (next.Probing? && next == Probing(parent, ctx, node, next.fd))
    case Probing(parent, ctx, node, fd) =>
      next == Described(parent, ctx, node) || next == Unwind([Close(fd), Drop(node)] + ExitOf(ctx))
    case Described(parent, ctx, node) =>
      if ctx.Entry? then next == Granted(ctx.file, node)
      else if ctx.plus && next == Resolve(parent, Listing(true, ctx.got + [node])) then true
      else next.Dropping? && next.parent == parent && next.ctx == ctx
    case Dropping(parent, ctx, _, _) =>
      ctx.Listing? && (next == Send(ctx.plus, ctx.got) || next == Resolve(parent, ctx))
    case Granted(file, node) =>
      next == Unwind([Drop(node)]) || next == Unwind([Drop(node), Drop(node)] + CloseFile(file))
    case Send(_, got) => next == Unwind(Drops(got)) || next == Unwind(Drops(got) + Drops(got))
    case Unwind(todo) => todo != [] && next == Unwind(todo[1..])
    case Forgetting(batch) => batch != [] && next == Forgetting(batch[1..])
    case OpenFile(node) => next == Unwind([]) || (next.Opening? && next.node == node)
    case Opening(_, fd) => next == Unwind([]) || next == Unwind([Close(fd)])
    case Releasing(_, fd) => next == Unwind([Close(fd)])
    case Writing(node) => next == Unwind([]) || (next.Answered? && next.node == node)
    case Answered(_, _) => next == Unwind([])
    case Using(nodes, parent, temp) =>
      || next == task
      || next == Unwind(CloseFile(temp))
      || (next.Using? && temp.None? && next.temp.Some? && next.nodes == nodes && next.next == parent)
      || (parent.Some? && temp.None? && next == Resolve(parent.value, Entry(None)))
  }

  ghost predicate Ordered(s: State, t: nat, out: Outcome) {
    out.Next? && t < |s.tasks| ==> t < |out.state.tasks| && Follows(s.tasks[t], out.state.tasks[t])
  }

  lemma ChildOrdered(s: State, t: nat, parent: Addr, ctx: Context, node: Addr, choice: Choice)
    requires t < |s.tasks|
    ensures s.tasks[t] == Resolve(parent, ctx) ==> Ordered(s, t, ResolveStep(s, t, parent, ctx, choice))
    ensures s.tasks[t] == Held(parent, ctx, node) ==> Ordered(s, t, HeldStep(s, t, parent, ctx, node, choice))
  {}

  lemma ProbingOrdered(s: State, t: nat, parent: Addr, ctx: Context, node: Addr, fd: Fd, choice: Choice)
    requires t < |s.tasks|
    ensures s.tasks[t] == Probing(parent, ctx, node, fd) ==>
      Ordered(s, t, ProbingStep(s, t, parent, ctx, node, fd, choice))
  {}

  lemma UsesOrdered(s: State, t: nat, nodes: set<Addr>, next: Option<Addr>, temp: Option<Fd>, choice: Choice)
    requires t < |s.tasks|
    ensures s.tasks[t] == Using(nodes, next, temp) ==> Ordered(s, t, UsingStep(s, t, nodes, next, temp, choice))
  {}

  lemma WritesOrdered(s: State, t: nat, node: Addr, inode: Inode, choice: Choice)
    requires t < |s.tasks|
    ensures s.tasks[t] == Writing(node) ==> Ordered(s, t, WritingStep(s, t, node, choice))
    ensures s.tasks[t] == Answered(node, inode) ==> Ordered(s, t, AnsweredStep(s, t, node, inode, choice))
  {}

  lemma RepliesOrdered(s: State, t: nat, file: Option<Fd>, node: Addr, plus: bool, got: seq<Addr>, choice: Choice)
    requires t < |s.tasks|
    ensures s.tasks[t] == Granted(file, node) ==> Ordered(s, t, GrantedStep(s, t, file, node, choice))
    ensures s.tasks[t] == Send(plus, got) ==> Ordered(s, t, SendStep(s, t, got, choice))
  {}

  lemma FilesOrdered(s: State, t: nat, node: Addr, fd: Fd, choice: Choice)
    requires t < |s.tasks|
    ensures s.tasks[t] == CreateFile(node) ==> Ordered(s, t, OpenStep(s, t, node, true, choice))
    ensures s.tasks[t] == OpenFile(node) ==> Ordered(s, t, OpenStep(s, t, node, false, choice))
    ensures s.tasks[t] == Opening(node, fd) ==> Ordered(s, t, OpeningStep(s, t, node, fd, choice))
  {}

  lemma RunOrderedOthers(s: State, t: nat, choice: Choice)
    requires t < |s.tasks| && !TouchesCache(s.tasks[t])
    ensures Ordered(s, t, RunTask(s, t, choice))
  {
    match s.tasks[t] {
      case CreateFile(parent) => FilesOrdered(s, t, parent, 0, choice);
      case Resolve(parent, ctx) => ChildOrdered(s, t, parent, ctx, 0, choice);
      case Opened(parent, ctx, fd) =>
      case Held(parent, ctx, node) => ChildOrdered(s, t, parent, ctx, node, choice);
      case Granted(file, node) => RepliesOrdered(s, t, file, node, false, [], choice);
      case Send(plus, got) => RepliesOrdered(s, t, None, 0, plus, got, choice);
      case OpenFile(node) => FilesOrdered(s, t, node, 0, choice);
      case Opening(node, fd) => FilesOrdered(s, t, node, fd, choice);
      case Releasing(node, fd) =>
      case Probing(parent, ctx, node, fd) => ProbingOrdered(s, t, parent, ctx, node, fd, choice);
      case Writing(node) => WritesOrdered(s, t, node, s.root, choice);
      case Answered(node, inode) => WritesOrdered(s, t, node, inode, choice);
      case Using(nodes, next, temp) => UsesOrdered(s, t, nodes, next, temp, choice);
    }
  }

  lemma RunOrderedCache(s: State, t: nat, choice: Choice)
    requires t < |s.tasks| && TouchesCache(s.tasks[t])
    ensures Ordered(s, t, RunTask(s, t, choice))
  {
    match s.tasks[t] {
      case Resolved(parent, ctx, inode) =>
        if choice.Address? { InsertSilent(s, t, parent, ctx, inode, choice.node); }
      case Described(parent, ctx, node) =>
        match ctx {
          case Entry(file) => RefSilent(s, t, node, Granted(file, node));
          case Listing(plus, got) => RefSilent(s, t, node, Resolve(parent, Listing(plus, got + [node])));
        }
      case Dropping(parent, ctx, node, last) =>
        if ctx.Listing? { UnrefSilent(s, t, node, 1, if last then Send(ctx.plus, ctx.got) else Resolve(parent, ctx)); }
      case Unwind(todo) =>
        if todo != [] && todo[0].Drop? { UnrefSilent(s, t, todo[0].node, 1, Unwind(todo[1..])); }
      case Forgetting(batch) =>
        if batch != [] { UnrefSilent(s, t, batch[0].node, batch[0].nlookup, Forgetting(batch[1..])); }
    }
  }

  lemma RunOrdered(s: State, t: nat, choice: Choice)
    requires RunTask(s, t, choice).Next?
    ensures t < |s.tasks| && t < |RunTask(s, t, choice).state.tasks|
    ensures Follows(s.tasks[t], RunTask(s, t, choice).state.tasks[t])
  {
    if TouchesCache(s.tasks[t]) { RunOrderedCache(s, t, choice); } else { RunOrderedOthers(s, t, choice); }
  }

  predicate TouchesCache(task: Task) {
    task.Resolved? || task.Described? || task.Dropping? || task.Unwind? || task.Forgetting?
  }

  ghost predicate SameMemory(s: State, t: nat, out: Outcome) {
    out.Next? ==>
      (OnlyTask(s, t, out.state) && out.state.root == s.root && out.state.clock == s.clock
       && out.state.heap == s.heap && out.state.cache == s.cache)
  }

  lemma ChildKeepsMemory(s: State, t: nat, parent: Addr, ctx: Context, node: Addr, choice: Choice)
    requires t < |s.tasks|
    ensures var out := ResolveStep(s, t, parent, ctx, choice); SameMemory(s, t, out) && Silent(s, t, out)
    ensures var out := HeldStep(s, t, parent, ctx, node, choice); SameMemory(s, t, out) && Silent(s, t, out)
  {}

  lemma RepliesKeepMemory(s: State, t: nat, file: Option<Fd>, node: Addr, fd: Fd, got: seq<Addr>, choice: Choice)
    requires t < |s.tasks|
    ensures SameMemory(s, t, GrantedStep(s, t, file, node, choice))
    ensures SameMemory(s, t, SendStep(s, t, got, choice))
    ensures SameMemory(s, t, OpeningStep(s, t, node, fd, choice))
    ensures !choice.Proceed? ==>
      (Silent(s, t, GrantedStep(s, t, file, node, choice)) && Silent(s, t, OpeningStep(s, t, node, fd, choice)))
    ensures !choice.Accept? ==> Silent(s, t, SendStep(s, t, got, choice))
  {}

  lemma FilesKeepMemory(s: State, t: nat, node: Addr, creates: bool, choice: Choice)
    requires t < |s.tasks|
    ensures var out := OpenStep(s, t, node, creates, choice); SameMemory(s, t, out) && Silent(s, t, out)
  {}

  lemma ProbingKeepsMemory(s: State, t: nat, parent: Addr, ctx: Context, node: Addr, fd: Fd, choice: Choice)
    requires t < |s.tasks|
    ensures var out := ProbingStep(s, t, parent, ctx, node, fd, choice); SameMemory(s, t, out) && Silent(s, t, out)
  {}

  lemma UsesKeepMemory(s: State, t: nat, nodes: set<Addr>, next: Option<Addr>, temp: Option<Fd>, choice: Choice)
    requires t < |s.tasks|
    ensures var out := UsingStep(s, t, nodes, next, temp, choice); SameMemory(s, t, out) && Silent(s, t, out)
  {}

  lemma WritesKeepMemory(s: State, t: nat, node: Addr, inode: Inode, choice: Choice)
    requires t < |s.tasks|
    ensures SameMemory(s, t, WritingStep(s, t, node, choice)) && Silent(s, t, WritingStep(s, t, node, choice))
    ensures var out := AnsweredStep(s, t, node, inode, choice); SameMemory(s, t, out) && Silent(s, t, out)
  {}

  lemma ChildMoves(s: State, t: nat, choice: Choice)
    requires t < |s.tasks| && !TouchesCache(s.tasks[t]) && OnChild(s.tasks[t])
    ensures SameMemory(s, t, RunTask(s, t, choice)) && Silent(s, t, RunTask(s, t, choice))
  {
    match s.tasks[t] {
      case Resolve(parent, ctx) => ChildKeepsMemory(s, t, parent, ctx, 0, choice);
      case Opened(parent, ctx, fd) =>
      case Held(parent, ctx, node) => ChildKeepsMemory(s, t, parent, ctx, node, choice);
      case Probing(parent, ctx, node, fd) => ProbingKeepsMemory(s, t, parent, ctx, node, fd, choice);
    }
  }

  lemma RunMovesOthers(s: State, t: nat, choice: Choice)
    requires t < |s.tasks| && !TouchesCache(s.tasks[t])
    ensures SameMemory(s, t, RunTask(s, t, choice))
    ensures TakenReply(s.tasks[t], choice) || Silent(s, t, RunTask(s, t, choice))
  {
    if OnChild(s.tasks[t]) {
      ChildMoves(s, t, choice);
    } else {
      match s.tasks[t] {
        case CreateFile(parent) => FilesKeepMemory(s, t, parent, true, choice);
        case Granted(file, node) => RepliesKeepMemory(s, t, file, node, 0, [], choice);
        case Send(plus, got) => RepliesKeepMemory(s, t, None, 0, 0, got, choice);
        case OpenFile(node) => FilesKeepMemory(s, t, node, false, choice);
        case Opening(node, fd) => RepliesKeepMemory(s, t, None, node, fd, [], choice);
        case Releasing(node, fd) =>
        case Writing(node) => WritesKeepMemory(s, t, node, s.root, choice);
        case Answered(node, inode) => WritesKeepMemory(s, t, node, inode, choice);
        case Using(nodes, next, temp) => UsesKeepMemory(s, t, nodes, next, temp, choice);
      }
    }
  }

  lemma RunKeepsObjects(s: State, t: nat, choice: Choice)
    requires t < |s.tasks| && TouchesCache(s.tasks[t])
    ensures KeepsObjects(s, RunTask(s, t, choice))
  {
    match s.tasks[t] {
      case Resolved(parent, ctx, inode) =>
        if choice.Address? { InsertKeepsObjects(s, t, parent, ctx, inode, choice.node); }
      case Described(parent, ctx, node) =>
        match ctx {
          case Entry(file) => RefKeepsObjects(s, t, node, Granted(file, node));
          case Listing(plus, got) => RefKeepsObjects(s, t, node, Resolve(parent, Listing(plus, got + [node])));
        }
      case Dropping(parent, ctx, node, last) =>
        if ctx.Listing? {
          UnrefKeepsObjects(s, t, node, 1, if last then Send(ctx.plus, ctx.got) else Resolve(parent, ctx));
        }
      case Unwind(todo) =>
        if todo != [] && todo[0].Drop? { UnrefKeepsObjects(s, t, todo[0].node, 1, Unwind(todo[1..])); }
      case Forgetting(batch) =>
        if batch != [] { UnrefKeepsObjects(s, t, batch[0].node, batch[0].nlookup, Forgetting(batch[1..])); }
    }
  }

  lemma RunSilent(s: State, t: nat, choice: Choice)
    requires t < |s.tasks| && TouchesCache(s.tasks[t])
    ensures Silent(s, t, RunTask(s, t, choice))
  {
    match s.tasks[t] {
      case Resolved(parent, ctx, inode) =>
        if choice.Address? { InsertSilent(s, t, parent, ctx, inode, choice.node); }
      case Described(parent, ctx, node) =>
        match ctx {
          case Entry(file) => RefSilent(s, t, node, Granted(file, node));
          case Listing(plus, got) => RefSilent(s, t, node, Resolve(parent, Listing(plus, got + [node])));
        }
      case Dropping(parent, ctx, node, last) =>
        if ctx.Listing? { UnrefSilent(s, t, node, 1, if last then Send(ctx.plus, ctx.got) else Resolve(parent, ctx)); }
      case Unwind(todo) =>
        if todo != [] && todo[0].Drop? { UnrefSilent(s, t, todo[0].node, 1, Unwind(todo[1..])); }
      case Forgetting(batch) =>
        if batch != [] { UnrefSilent(s, t, batch[0].node, batch[0].nlookup, Forgetting(batch[1..])); }
    }
  }

  /** A step of a request moves that request only, changes no live object, and gives
      the kernel nothing unless it is an accepted reply. */
  lemma RunMoves(s: State, t: nat, choice: Choice)
    requires RunTask(s, t, choice).Next?
    ensures OnlyTask(s, t, RunTask(s, t, choice).state) && SameObjects(s, RunTask(s, t, choice).state)
    ensures (TakenReply(s.tasks[t], choice)) || NothingGranted(s, RunTask(s, t, choice).state)
  {
    if TouchesCache(s.tasks[t]) {
      RunKeepsObjects(s, t, choice);
      RunSilent(s, t, choice);
    } else {
      RunMovesOthers(s, t, choice);
    }
  }

  /** A request of `ReadDirPlus` up to its reply. */
  predicate ListsAttributes(task: Task) {
    match task
    case Resolve(_, ctx) => ctx.Listing? && ctx.plus
    case Opened(_, ctx, _) => ctx.Listing? && ctx.plus
    case Resolved(_, ctx, _) => ctx.Listing? && ctx.plus
    case Held(_, ctx, _) => ctx.Listing? && ctx.plus
    case Probing(_, ctx, _, _) => ctx.Listing? && ctx.plus
    case Described(_, ctx, _) => ctx.Listing? && ctx.plus
    case Dropping(_, ctx, _, _) => ctx.Listing? && ctx.plus
    case Send(plus, _) => plus
    case _ => false
  }

  lemma FollowsKeepsPlain(task: Task, next: Task)
    requires Follows(task, next) && !ListsAttributes(task)
    ensures !ListsAttributes(next)
  {}

  lemma RepliesOnlyGrant(s: State, t: nat, choice: Choice, s': State)
    requires RunTask(s, t, choice) == Next(s') && t < |s.tasks| && TakenReply(s.tasks[t], choice)
    ensures s.lookups <= s'.lookups && s.uncounted <= s'.uncounted
  {}

  lemma LookupsGrow(s: State, t: nat, choice: Choice, s': State)
    requires RunTask(s, t, choice) == Next(s')
    ensures s.lookups <= s'.lookups && s.uncounted <= s'.uncounted
  {
    RunMoves(s, t, choice);
    if t < |s.tasks| && TakenReply(s.tasks[t], choice) { RepliesOnlyGrant(s, t, choice, s'); }
  }

  lemma KernelKeepsObjects(s: State, event: Event)
    ensures KeepsObjects(s, KernelStep(s, event))
  {}

  /** An object does not change while it lives, and a key keeps its object while it
      stays cached.  An address may be reused, but not in the step that frees it. */
  lemma StepKeepsObjects(s: State, step: Step)
    ensures KeepsObjects(s, Exec(s, step))
  {
    match step {
      case Kernel(event) => KernelKeepsObjects(s, event);
      case Run(t, choice) => if RunTask(s, t, choice).Next? { RunMoves(s, t, choice); }
    }
  }

  /** The kernel holds a lookup on the id in every state the run passes through. */
  ghost predicate HeldThroughout(s: State, steps: seq<Step>, a: Addr)
    decreases |steps|
  {
    && s.lookups[a] > 0
    && (steps != [] && Exec(s, steps[0]).Next? ==> HeldThroughout(Exec(s, steps[0]).state, steps[1..], a))
  }

  /** While the kernel holds an id, the id means the same object: never another one
      that came to live at the same address. */
  lemma {:induction false} HeldIdKeepsMeaning(s: State, steps: seq<Step>, a: Addr)
    requires Inv(s) && ExecAll(s, steps).Next? && HeldThroughout(s, steps, a)
    ensures a in s.heap && a in ExecAll(s, steps).state.heap
    ensures ExecAll(s, steps).state.heap[a] == s.heap[a]
    decreases |steps|
  {
    CountedIsLive(s, a);
    if steps != [] {
      StepSafe(s, steps[0]);
      StepKeepsObjects(s, steps[0]);
      HeldIdKeepsMeaning(Exec(s, steps[0]).state, steps[1..], a);
    }
  }

  ghost predicate CachedThroughout(s: State, steps: seq<Step>, k: Key)
    decreases |steps|
  {
    && k in s.cache
    && (steps != [] && Exec(s, steps[0]).Next? ==> CachedThroughout(Exec(s, steps[0]).state, steps[1..], k))
  }

  /** While a key stays cached, every insert of it finds the same object. */
  lemma {:induction false} CachedKeyKeepsObject(s: State, steps: seq<Step>, k: Key)
    requires ExecAll(s, steps).Next? && CachedThroughout(s, steps, k)
    ensures k in s.cache && k in ExecAll(s, steps).state.cache
    ensures ExecAll(s, steps).state.cache[k].node == s.cache[k].node
    decreases |steps|
  {
    if steps != [] {
      StepKeepsObjects(s, steps[0]);
      CachedKeyKeepsObject(Exec(s, steps[0]).state, steps[1..], k);
    }
  }

  // ---- Descriptors

  /** Every open descriptor is the root's, a cached inode's, an unreleased file
      handle's or a running handler's - exactly one of them - and nothing else is. */
  lemma DescriptorsConserved(root: Inode, steps: seq<Step>, s: State)
    requires ExecAll(Init(root), steps) == Next(s)
    ensures forall fd: Fd, holder: Holder :: Holds(s, holder, fd) <==> fd in s.open && s.open[fd] == holder
  {
    ReachableIsGood(root, steps, s);
    forall fd: Fd, holder: Holder ensures Holds(s, holder, fd) <==> fd in s.open && s.open[fd] == holder {
      if fd in s.open { assert Holds(s, s.open[fd], fd); }
      if holder.ByTask? && Holds(s, holder, fd) { TaskOwns(s, holder.task, fd); }
    }
  }
}
