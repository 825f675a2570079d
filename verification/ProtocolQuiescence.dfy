/** Once everything is given back nothing is left - and from every reachable state
    everything can be given back. */
module ProtocolQuiescence {
  import opened Options
  import opened RefCounts
  import opened Protocol
  import opened ProtocolInvariant
  import opened ProtocolSafety
  import opened ProtocolRuns
  import opened ProtocolWrites
  import opened ProtocolDevices

  /** No request runs, no file is open, and the kernel holds no lookup. */
  predicate Quiescent(s: State) {
    AllFinished(s) && s.handles == map[] && s.lookups == multiset{}
  }

  lemma {:induction false} FinishedHoldNothing(tasks: seq<Task>, a: Addr)
    requires forall t | 0 <= t < |tasks| :: Finished(tasks[t])
    ensures AllRefs(tasks, a) == 0
  {
    if tasks != [] {
      assert Finished(tasks[|tasks| - 1]);
      FinishedHoldNothing(tasks[..|tasks| - 1], a);
    }
  }

  /** What is left is the inodes given to the kernel and not counted by it, each with the
      references given, and their descriptors next to the root's. */
  ghost predicate OnlyUncountedLeft(s: State) {
    && (forall a: Addr :: a in s.heap <==> s.uncounted[a] > 0)
    && (forall k | k in s.cache ::
          s.cache[k].node in s.uncounted && s.cache[k].refcnt == s.uncounted[s.cache[k].node])
    && (forall fd: Fd :: fd in s.open <==> fd == s.root.fd || exists a | a in s.heap :: s.heap[a].fd == fd)
  }

  /** In a quiescent state exactly the uncounted inodes are cached and open. */
  lemma QuiescentIsClean(s: State)
    requires Inv(s) && Quiescent(s)
    ensures OnlyUncountedLeft(s)
  {
    forall a: Addr ensures CountAt(s, a) == s.uncounted[a] {
      FinishedHoldNothing(s.tasks, a);
      assert CountAt(s, a) == AllRefs(s.tasks, a) + Owed(s, a);
    }
    forall k | k in s.cache
      ensures s.cache[k].node in s.uncounted && s.cache[k].refcnt == s.uncounted[s.cache[k].node]
    {
      assert CountAt(s, s.cache[k].node) == s.cache[k].refcnt;
    }
    OnlyInodesOpen(s);
  }

  lemma OnlyInodesOpen(s: State)
    requires FdsOk(s) && AllFinished(s) && s.handles == map[]
    ensures forall fd: Fd :: fd in s.open <==> fd == s.root.fd || exists a | a in s.heap :: s.heap[a].fd == fd
  {
    forall t, fd: Fd | 0 <= t < |s.tasks| ensures Fds(s.tasks[t], fd) == 0 { assert Finished(s.tasks[t]); }
    forall fd | fd in s.open ensures fd == s.root.fd || exists a | a in s.heap :: s.heap[a].fd == fd {
      assert Holds(s, s.open[fd], fd);
    }
  }

  /** So the cache is empty, and only the root's descriptor open, exactly when the kernel
      has counted everything it was given. */
  lemma CleanIffCounted(s: State)
    requires Inv(s) && Quiescent(s)
    ensures s.cache == map[] <==> s.uncounted == multiset{}
    ensures s.uncounted == multiset{} ==> s.heap == map[] && s.open == map[s.root.fd := ByRoot]
  {
    QuiescentIsClean(s);
    if s.uncounted == multiset{} {
      forall fd | fd in s.open ensures fd == s.root.fd {}
    } else {
      var a :| a in s.uncounted;
      assert a in s.heap && s.heap[a].key in s.cache;
    }
  }

  // ---- Giving everything back

  /** How many steps a request needs to leave by the shortest way. */
  function Distance(task: Task): nat {
    match task
    case CreateFile(_) => 1
    case Resolve(_, ctx) => |ExitOf(ctx)| + 1
    case Opened(_, ctx, _) => |ExitOf(ctx)| + 2
    case Resolved(_, ctx, _) => |ExitOf(ctx)| + 3
    case Held(_, ctx, _) => |ExitOf(ctx)| + 2
    case Probing(_, ctx, _, _) => |ExitOf(ctx)| + 3
    case Described(_, ctx, _) => |ExitOf(ctx)| + 5
    case Dropping(_, ctx, _, _) => |ExitOf(ctx)| + 3
    case Granted(file, _) => |CloseFile(file)| + 3
    case Send(_, got) => 2 * |got| + 1
    case Unwind(todo) => |todo|
    case Forgetting(batch) => |batch|
    case OpenFile(_) => 1
    case Opening(_, _) => 2
    case Releasing(_, _) => 2
    case Writing(_) => 1
    case Answered(_, _) => 1
    case Using(_, _, temp) => |CloseFile(temp)| + 1
  }

  /** The way out: fail wherever the next call may fail, go on where it may not. */
  function WayOut(task: Task, node: Addr): Choice {
    match task
    case Resolved(_, _, _) => Address(node)
    case Described(_, ctx, _) => if ctx.Entry? then Proceed else End
    case Dropping(_, _, _, _) => Proceed
    case Unwind(_) => Proceed
    case Forgetting(_) => Proceed
    case Releasing(_, _) => Proceed
    case Answered(_, _) => Proceed
    case _ => Fail
  }

  /** These take one more reference on their way out. */
  predicate MayTake(task: Task) {
    task.Resolved? || (task.Described? && task.ctx.Entry?)
  }

  lemma {:induction false} DropsLength(nodes: seq<Addr>)
    ensures |Drops(nodes)| == |nodes|
  {
    if nodes != [] {
      DropsLength(nodes[1..]);
    }
  }

  lemma ExitLength(ctx: Context)
    ensures ctx.Listing? ==> |ExitOf(ctx)| == 2 * |ctx.got|
  {
    if ctx.Listing? {
      DropsLength(ctx.got);
    }
  }

  lemma UnusedAddress(s: State) returns (node: Addr)
    ensures node !in s.heap && node != ROOT_ID
  {
    node := Above(s.heap.Keys + {ROOT_ID});
  }

  lemma Above(addrs: set<Addr>) returns (node: Addr)
    ensures forall a | a in addrs :: a < node
  {
    if addrs == {} {
      node := 0;
    } else {
      var a :| a in addrs;
      var n := Above(addrs - {a});
      node := if a < n then n else a + 1;
      assert forall x | x in addrs :: x == a || x in addrs - {a};
    }
  }

  /** What requests on their way out leave alone. */
  ghost predicate OnlyTasks(s: State, s': State) {
    |s'.tasks| == |s.tasks| && NothingGranted(s, s') && s'.root == s.root
  }

  /** A failing call always leads out of the handler. */
  lemma FailLeaves(s: State, t: nat)
    requires t < |s.tasks| && RunTask(s, t, Fail).Next? && WayOut(s.tasks[t], 0).Fail?
    ensures t < |RunTask(s, t, Fail).state.tasks| && RunTask(s, t, Fail).state.tasks[t].Unwind?
  {
    RunOrdered(s, t, Fail);
    match s.tasks[t] {
      case Held(parent, ctx, n) => HeldLeaves(s, t, parent, ctx, n);
      case Writing(n) => UseLeaves(s, t, n, {}, None, None);
      case Using(nodes, next, temp) => UseLeaves(s, t, 0, nodes, next, temp);
      case _ =>
    }
  }

  /** Whatever follows on the way out is nearer. */
  lemma FollowsNearer(task: Task, next: Task)
    requires Follows(task, next) && TaskOk(task)
    requires WayOut(task, 0).Fail? ==> next.Unwind?
    requires task.Described? && task.ctx.Listing? ==> next.Dropping?
    ensures Distance(next) < Distance(task) && !MayTake(next) && !next.Answered?
  {
    match task {
      case Resolve(_, ctx) => ExitLength(ctx);
      case Dropping(_, ctx, _, _) => ExitLength(ctx);
      case Send(_, got) => DropsLength(got);
      case _ =>
    }
  }

  lemma FollowsAdvances(s: State, t: nat, choice: Choice, node: Addr)
    requires t < |s.tasks| && TaskOk(s.tasks[t]) && choice == WayOut(s.tasks[t], node)
    requires RunTask(s, t, choice).Next?
    ensures t < |RunTask(s, t, choice).state.tasks|
    ensures Distance(RunTask(s, t, choice).state.tasks[t]) < Distance(s.tasks[t])
    ensures !MayTake(RunTask(s, t, choice).state.tasks[t]) && !RunTask(s, t, choice).state.tasks[t].Answered?
  {
    RunOrdered(s, t, choice);
    if choice.Fail? {
      FailLeaves(s, t);
    } else if s.tasks[t].Described? && s.tasks[t].ctx.Listing? {
      DescribedLeaves(s, t, s.tasks[t].parent, s.tasks[t].ctx, s.tasks[t].node);
    }
    FollowsNearer(s.tasks[t], RunTask(s, t, choice).state.tasks[t]);
  }

  lemma HeldLeaves(s: State, t: nat, parent: Addr, ctx: Context, node: Addr)
    requires t < |s.tasks| && HeldStep(s, t, parent, ctx, node, Fail).Next?
    ensures HeldStep(s, t, parent, ctx, node, Fail).state.tasks[t] == Unwind([Drop(node)] + ExitOf(ctx))
  {}

  lemma DescribedLeaves(s: State, t: nat, parent: Addr, ctx: Context, node: Addr)
    requires t < |s.tasks| && ctx.Listing? && DescribedStep(s, t, parent, ctx, node, End).Next?
    ensures DescribedStep(s, t, parent, ctx, node, End).state.tasks[t] == Dropping(parent, ctx, node, true)
  {}

  lemma UseLeaves(s: State, t: nat, node: Addr, nodes: set<Addr>, next: Option<Addr>, temp: Option<Fd>)
    requires t < |s.tasks|
    ensures var out := WritingStep(s, t, node, Fail); out.Next? ==> out.state.tasks[t] == Unwind([])
    ensures var out := UsingStep(s, t, nodes, next, temp, Fail);
      out.Next? ==> out.state.tasks[t] == Unwind(CloseFile(temp))
  {}

  lemma NeverStuck(s: State, t: nat, node: Addr)
    requires t < |s.tasks| && TaskOk(s.tasks[t]) && !Finished(s.tasks[t])
    requires node !in s.heap && node != ROOT_ID
    ensures !RunTask(s, t, WayOut(s.tasks[t], node)).Disabled?
  {
    match s.tasks[t] {
      case Resolved(parent, ctx, inode) => InsertSilent(s, t, parent, ctx, inode, node);
      case Described(parent, ctx, n) => if ctx.Entry? { RefSilent(s, t, n, Granted(ctx.file, n)); }
      case Dropping(parent, ctx, n, last) =>
        UnrefSilent(s, t, n, 1, if last then Send(ctx.plus, ctx.got) else Resolve(parent, ctx));
      case Unwind(todo) => if todo[0].Drop? { UnrefSilent(s, t, todo[0].node, 1, Unwind(todo[1..])); }
      case Forgetting(batch) => UnrefSilent(s, t, batch[0].node, batch[0].nlookup, Forgetting(batch[1..]));
      case _ =>
    }
  }

  /** Only a request that may take a reference can run into a full count. */
  lemma NoOverflow(s: State, t: nat, node: Addr)
    requires t < |s.tasks| && !MayTake(s.tasks[t])
    ensures RunTask(s, t, WayOut(s.tasks[t], node)) != Fault(Overflow)
  {}

  /** The inode that an answered `WriteBuf` will read again is still there. */
  predicate Fresh(s: State, task: Task) {
    task.Answered? ==> !Gone(s, task.node, task.inode)
  }

  /** A request that is not finished can always take a step that succeeds and brings it
      nearer to its end - unless its read would be stale. */
  lemma ExitStep(s: State, t: nat) returns (choice: Choice)
    requires Inv(s) && t < |s.tasks| && !Finished(s.tasks[t]) && Fresh(s, s.tasks[t])
    requires MayTake(s.tasks[t]) ==> !AtLimit(s)
    ensures RunTask(s, t, choice).Next?
    ensures Inv(RunTask(s, t, choice).state)
    ensures OnlyTask(s, t, RunTask(s, t, choice).state) && OnlyTasks(s, RunTask(s, t, choice).state)
    ensures Distance(RunTask(s, t, choice).state.tasks[t]) < Distance(s.tasks[t])
    ensures !MayTake(RunTask(s, t, choice).state.tasks[t]) && !RunTask(s, t, choice).state.tasks[t].Answered?
  {
    var node := UnusedAddress(s);
    choice := WayOut(s.tasks[t], node);
    RunSafe(s, t, choice);
    assert TaskOk(s.tasks[t]);
    NeverStuck(s, t, node);
    if !MayTake(s.tasks[t]) { NoOverflow(s, t, node); }
    RunMoves(s, t, choice);
    FollowsAdvances(s, t, choice, node);
  }

  /** A request can always be run to its end; what it held is then given back. */
  lemma {:induction false} FinishTask(s: State, t: nat) returns (steps: seq<Step>)
    requires Inv(s) && t < |s.tasks| && Fresh(s, s.tasks[t])
    requires MayTake(s.tasks[t]) ==> !AtLimit(s)
    ensures ExecAll(s, steps).Next?
    ensures Inv(ExecAll(s, steps).state)
    ensures OnlyTask(s, t, ExecAll(s, steps).state) && OnlyTasks(s, ExecAll(s, steps).state)
    ensures Finished(ExecAll(s, steps).state.tasks[t])
    decreases Distance(s.tasks[t])
  {
    if Finished(s.tasks[t]) {
      steps := [];
    } else {
      var choice := ExitStep(s, t);
      var s1 := RunTask(s, t, choice).state;
      var rest := FinishTask(s1, t);
      steps := [Run(t, choice)] + rest;
      assert steps[1..] == rest;
    }
  }

  lemma FinishingKeepsRoom(s: State, t: nat, s': State)
    requires Inv(s) && Inv(s') && !AtLimit(s) && OnlyTask(s, t, s') && OnlyTasks(s, s') && Finished(s'.tasks[t])
    ensures !AtLimit(s')
  {
    forall a: Addr ensures CountAt(s', a) + 1 != TWO_64 {
      CountOnlyFalls(s, t, s', a);
      assert CountAt(s, a) + 1 != TWO_64;
    }
  }

  lemma CountOnlyFalls(s: State, t: nat, s': State, a: Addr)
    requires CountsOk(s) && CountsOk(s') && OnlyTask(s, t, s') && NothingGranted(s, s') && Finished(s'.tasks[t])
    ensures CountAt(s', a) <= CountAt(s, a)
  {
    AllRefsReplace(s.tasks, t, s'.tasks[t], a);
    assert CountAt(s, a) == AllRefs(s.tasks, a) + Owed(s, a);
    assert CountAt(s', a) == AllRefs(s'.tasks, a) + Owed(s', a);
  }

  predicate NoneAnswered(s: State, t: nat) {
    t <= |s.tasks| && forall i | 0 <= i < t :: !s.tasks[i].Answered?
  }

  predicate AllFresh(s: State) {
    forall i | 0 <= i < |s.tasks| :: Fresh(s, s.tasks[i])
  }

  lemma AnsweredReturns(s: State, t: nat)
    requires Inv(s) && t < |s.tasks| && s.tasks[t].Answered? && Fresh(s, s.tasks[t])
    ensures RunTask(s, t, Proceed) == Next(Goto(s, t, Unwind([]))) && Inv(Goto(s, t, Unwind([])))
  {
    RunSafe(s, t, Proceed);
  }

  lemma SameLimit(s: State, s': State)
    requires !AtLimit(s) && s'.heap == s.heap && s'.cache == s.cache
    ensures !AtLimit(s')
  {
    forall a: Addr ensures CountAt(s', a) + 1 != TWO_64 {
      assert CountAt(s, a) + 1 != TWO_64;
    }
  }

  lemma OthersStayFresh(s: State, t: nat)
    requires t < |s.tasks| && NoneAnswered(s, t) && AllFresh(s)
    ensures var s1 := Goto(s, t, Unwind([])); NoneAnswered(s1, t + 1) && AllFresh(s1) && OnlyTasks(s, s1)
  {
    var s1 := Goto(s, t, Unwind([]));
    forall i | 0 <= i < |s1.tasks| ensures Fresh(s1, s1.tasks[i]) { assert Fresh(s, s.tasks[i]); }
  }

  /** The answered writes go first: while nothing else moves, they stay fresh. */
  lemma {:induction false} FinishAnswered(s: State, t: nat) returns (steps: seq<Step>)
    requires Inv(s) && !AtLimit(s) && NoneAnswered(s, t) && AllFresh(s)
    ensures ExecAll(s, steps).Next?
    ensures Inv(ExecAll(s, steps).state) && !AtLimit(ExecAll(s, steps).state)
    ensures NoneAnswered(ExecAll(s, steps).state, |s.tasks|) && OnlyTasks(s, ExecAll(s, steps).state)
    decreases |s.tasks| - t
  {
    if t == |s.tasks| {
      steps := [];
    } else if s.tasks[t].Answered? {
      AnsweredReturns(s, t);
      var s1 := Goto(s, t, Unwind([]));
      SameLimit(s, s1);
      OthersStayFresh(s, t);
      var rest := FinishAnswered(s1, t + 1);
      steps := [Run(t, Proceed)] + rest;
      assert steps[1..] == rest;
    } else {
      steps := FinishAnswered(s, t + 1);
    }
  }

  lemma {:induction false} FinishAll(s: State, t: nat) returns (steps: seq<Step>)
    requires Inv(s) && !AtLimit(s) && t <= |s.tasks| && NoneAnswered(s, |s.tasks|)
    requires forall i | 0 <= i < t :: Finished(s.tasks[i])
    ensures ExecAll(s, steps).Next?
    ensures Inv(ExecAll(s, steps).state) && AllFinished(ExecAll(s, steps).state)
    ensures OnlyTasks(s, ExecAll(s, steps).state)
    decreases |s.tasks| - t
  {
    if t == |s.tasks| {
      steps := [];
    } else {
      var first := FinishTask(s, t);
      var s1 := ExecAll(s, first).state;
      FinishingKeepsRoom(s, t, s1);
      var rest := FinishAll(s1, t + 1);
      steps := first + rest;
      ExecAllConcat(s, first, rest);
    }
  }

  /** One more request on top of finished ones, run to its end. */
  lemma FinishLast(s: State, event: Event) returns (steps: seq<Step>)
    requires Inv(s) && AllFinished(s) && KernelStep(s, event).Next?
    requires |KernelStep(s, event).state.tasks| == |s.tasks| + 1
    requires KernelStep(s, event).state.tasks[..|s.tasks|] == s.tasks
    requires var task := KernelStep(s, event).state.tasks[|s.tasks|]; !MayTake(task) && !task.Answered?
    ensures ExecAll(s, steps).Next?
    ensures Inv(ExecAll(s, steps).state) && AllFinished(ExecAll(s, steps).state)
    ensures ExecAll(s, steps).state.handles == KernelStep(s, event).state.handles
    ensures ExecAll(s, steps).state.lookups == KernelStep(s, event).state.lookups
    ensures ExecAll(s, steps).state.uncounted == KernelStep(s, event).state.uncounted
    ensures ExecAll(s, steps).state.root == KernelStep(s, event).state.root
  {
    KernelSafe(s, event);
    var s1 := KernelStep(s, event).state;
    var rest := FinishTask(s1, |s.tasks|);
    steps := [Kernel(event)] + rest;
    assert steps[1..] == rest;
    var s2 := ExecAll(s1, rest).state;
    forall i | 0 <= i < |s2.tasks| ensures Finished(s2.tasks[i]) {
      if i < |s.tasks| { assert s2.tasks[i] == s1.tasks[..|s.tasks|][i]; }
    }
  }

  lemma {:induction false} ReleaseAll(s: State) returns (steps: seq<Step>)
    requires Inv(s) && AllFinished(s)
    ensures ExecAll(s, steps).Next?
    ensures Inv(ExecAll(s, steps).state) && AllFinished(ExecAll(s, steps).state)
    ensures ExecAll(s, steps).state.handles == map[]
    ensures ExecAll(s, steps).state.lookups == s.lookups && ExecAll(s, steps).state.root == s.root
    ensures ExecAll(s, steps).state.uncounted == s.uncounted
    decreases |s.handles|
  {
    if s.handles == map[] {
      steps := [];
    } else {
      var fd :| fd in s.handles;
      var first := FinishLast(s, Release(fd));
      var s1 := ExecAll(s, first).state;
      assert |s.handles - {fd}| < |s.handles| by { RemoveShrinks(s.handles, fd); }
      var rest := ReleaseAll(s1);
      steps := first + rest;
      ExecAllConcat(s, first, rest);
    }
  }

  lemma RemoveShrinks<K, V>(m: map<K, V>, k: K)
    requires k in m
    ensures |m - {k}| < |m|
  {
    assert (m - {k}).Keys == m.Keys - {k};
    assert |(m - {k}).Keys| == |m.Keys| - 1;
  }

  /** With no request running and no file open, the kernel may forget any id whole. */
  lemma MayForgetWhole(s: State, node: Addr)
    requires Inv(s) && AllFinished(s) && s.handles == map[] && s.lookups[node] > 0
    ensures s.lookups[node] < TWO_64
    ensures MayForget(s, [Forget(node, s.lookups[node])])
    ensures s.lookups - BatchRefs([Forget(node, s.lookups[node])]) == s.lookups[node := 0]
  {
    assert CountAt(s, node) == AllRefs(s.tasks, node) + Owed(s, node);
    var batch := [Forget(node, s.lookups[node])];
    assert BatchRefs(batch) == Copies(node, s.lookups[node]) + BatchRefs(batch[1..]);
    assert BatchRefs(batch) == Copies(node, s.lookups[node]);
    forall t | 0 <= t < |s.tasks| ensures node !in Names(s.tasks[t]) {
      assert Finished(s.tasks[t]);
    }
  }

  lemma {:induction false} ForgetAll(s: State) returns (steps: seq<Step>)
    requires Inv(s) && AllFinished(s) && s.handles == map[]
    ensures ExecAll(s, steps).Next?
    ensures Inv(ExecAll(s, steps).state) && Quiescent(ExecAll(s, steps).state)
    ensures ExecAll(s, steps).state.root == s.root && ExecAll(s, steps).state.uncounted == s.uncounted
    decreases |s.lookups|
  {
    if s.lookups == multiset{} {
      steps := [];
    } else {
      var node :| node in s.lookups;
      MayForgetWhole(s, node);
      var first := FinishLast(s, ForgetMulti([Forget(node, s.lookups[node])]));
      var s1 := ExecAll(s, first).state;
      var rest := ForgetAll(s1);
      steps := first + rest;
      ExecAllConcat(s, first, rest);
    }
  }

  /** From every reachable state with room for one more reference, and no answered write
      that has lost its inode, there is a run that finishes all requests, releases all
      files and forgets all lookups. */
  lemma EverythingCanBeGivenBack(root: Inode, steps: seq<Step>, s: State) returns (more: seq<Step>)
    requires ExecAll(Init(root), steps) == Next(s) && !AtLimit(s) && AllFresh(s)
    ensures ExecAll(s, more).Next? && Quiescent(ExecAll(s, more).state)
    ensures ExecAll(s, more).state.uncounted == s.uncounted && OnlyUncountedLeft(ExecAll(s, more).state)
  {
    ReachableIsGood(root, steps, s);
    var answered := FinishAnswered(s, 0);
    var s0 := ExecAll(s, answered).state;
    var others := FinishAll(s0, 0);
    var finish := answered + others;
    ExecAllConcat(s, answered, others);
    var s1 := ExecAll(s, finish).state;
    var release := ReleaseAll(s1);
    var s2 := ExecAll(s1, release).state;
    var forget := ForgetAll(s2);
    ExecAllConcat(s1, release, forget);
    more := finish + (release + forget);
    ExecAllConcat(s, finish, release + forget);
    QuiescentIsClean(ExecAll(s, more).state);
  }

  /** A run gives everything back. */
  ghost predicate GivesBack(s: State, more: seq<Step>) {
    ExecAll(s, more).Next? && Quiescent(ExecAll(s, more).state)
  }

  lemma LostPreventsGivingBack(s: State, t: nat, more: seq<Step>)
    requires StampsOk(s) && Lost(s, t)
    ensures !GivesBack(s, more)
  {
    if ExecAll(s, more).Next? {
      LostWriteNeverReturns(s, t, more);
    }
  }

  /** Below the count limit such a run exists exactly when no answered write has lost its
      inode. */
  lemma CanBeGivenBackIffFresh(root: Inode, steps: seq<Step>, s: State)
    requires ExecAll(Init(root), steps) == Next(s) && !AtLimit(s)
    ensures (exists more :: GivesBack(s, more)) <==> AllFresh(s)
  {
    if AllFresh(s) {
      var more := EverythingCanBeGivenBack(root, steps, s);
      assert GivesBack(s, more);
    } else {
      InitStamps(root);
      RunKeepsStampsThroughout(Init(root), steps);
      var t :| 0 <= t < |s.tasks| && !Fresh(s, s.tasks[t]);
      forall more ensures !GivesBack(s, more) {
        LostPreventsGivingBack(s, t, more);
      }
    }
  }

  // ---- Listings the kernel does not count in full

  /** The kernel counts every entry of the listing it takes in this step, if any. */
  predicate CountsInFull(s: State, step: Step) {
    (step.Run? && step.choice.Accept? && step.task < |s.tasks| && s.tasks[step.task].Send?
     && step.choice.counted <= multiset(s.tasks[step.task].got)) ==>
      step.choice.counted == multiset(s.tasks[step.task].got)
  }

  predicate AlwaysCountsInFull(s: State, steps: seq<Step>)
    decreases |steps|
  {
    steps != [] ==>
      (CountsInFull(s, steps[0])
       && (Exec(s, steps[0]).Next? ==> AlwaysCountsInFull(Exec(s, steps[0]).state, steps[1..])))
  }

  lemma KernelKeepsUncounted(s: State, event: Event, s': State)
    requires KernelStep(s, event) == Next(s')
    ensures s'.uncounted == s.uncounted
  {}

  lemma ReplyUncounted(s: State, t: nat, choice: Choice, s': State)
    requires RunTask(s, t, choice) == Next(s') && t < |s.tasks| && TakenReply(s.tasks[t], choice)
    ensures !s.tasks[t].Send? ==> s'.uncounted == s.uncounted
    ensures s.tasks[t].Send? ==>
      choice.counted <= multiset(s.tasks[t].got)
      && s'.uncounted == s.uncounted + (multiset(s.tasks[t].got) - choice.counted)
  {}

  lemma StepUncounted(s: State, step: Step, s': State)
    requires Exec(s, step) == Next(s')
    ensures s.uncounted <= s'.uncounted
    ensures s'.uncounted == s.uncounted <==> CountsInFull(s, step)
  {
    match step {
      case Kernel(event) => KernelKeepsUncounted(s, event, s');
      case Run(t, choice) =>
        RunMoves(s, t, choice);
        if TakenReply(s.tasks[t], choice) {
          ReplyUncounted(s, t, choice, s');
          if s.tasks[t].Send? { NoneLeftOver(s.uncounted, multiset(s.tasks[t].got), choice.counted); }
        }
    }
  }

  lemma NoneLeftOver(uncounted: multiset<Addr>, got: multiset<Addr>, counted: multiset<Addr>)
    requires counted <= got
    ensures uncounted + (got - counted) == uncounted <==> counted == got
  {
    assert got == counted + (got - counted);
    assert |uncounted + (got - counted)| == |uncounted| + |got - counted|;
  }

  /** What the kernel was given and does not count is never taken back; it is nothing
      exactly when every listing was counted in full. */
  lemma {:induction false} UncountedIff(s: State, steps: seq<Step>)
    requires ExecAll(s, steps).Next?
    ensures s.uncounted <= ExecAll(s, steps).state.uncounted
    ensures ExecAll(s, steps).state.uncounted == s.uncounted <==> AlwaysCountsInFull(s, steps)
    decreases |steps|
  {
    if steps != [] {
      StepUncounted(s, steps[0], Exec(s, steps[0]).state);
      UncountedIff(Exec(s, steps[0]).state, steps[1..]);
    }
  }

  /** Whenever a run from start-up has given everything back, the cache is empty exactly
      when the kernel counted every entry of every listing it took. */
  lemma EmptyIffCountedInFull(root: Inode, steps: seq<Step>, s: State)
    requires ExecAll(Init(root), steps) == Next(s) && Quiescent(s)
    ensures s.cache == map[] <==> AlwaysCountsInFull(Init(root), steps)
  {
    ReachableIsGood(root, steps, s);
    UncountedIff(Init(root), steps);
    CleanIffCounted(s);
  }

  lemma {:induction false} PlainListingsCountInFull(s: State, steps: seq<Step>)
    requires Inv(s) && NoPlusTask(s) && NoPlusRequest(steps)
    ensures AlwaysCountsInFull(s, steps)
    decreases |steps|
  {
    if steps != [] {
      if steps[0].Run? && steps[0].task < |s.tasks| { assert TaskOk(s.tasks[steps[0].task]); }
      if Exec(s, steps[0]).Next? {
        var s' := Exec(s, steps[0]).state;
        NextIsGood(s, steps[0], s');
        StepKeepsNoPlus(s, steps[0], s');
        PlainListingsCountInFull(s', steps[1..]);
      }
    }
  }

  /** Without `ReadDirPlus` it is empty whatever the kernel does. */
  lemma EmptyWithoutReadDirPlus(root: Inode, steps: seq<Step>, s: State)
    requires ExecAll(Init(root), steps) == Next(s) && Quiescent(s) && NoPlusRequest(steps)
    ensures s.cache == map[] && s.heap == map[] && s.open == map[s.root.fd := ByRoot]
  {
    ReachableIsGood(root, steps, s);
    PlainListingsCountInFull(Init(root), steps);
    UncountedIff(Init(root), steps);
    CleanIffCounted(s);
  }
}
