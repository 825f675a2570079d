/** Device closure: which runs keep the kernel on the root's source device. */
module ProtocolDevices {
  import opened RefCounts
  import opened Protocol
  import opened ProtocolInvariant
  import opened ProtocolSafety
  import opened ProtocolRuns

  predicate OnRootDevice(s: State, a: Addr) {
    a in s.heap && s.heap[a].key.dev == s.root.key.dev
  }

  predicate NeedsCheck(task: Task) {
    task.Granted? || ((task.Probing? || task.Described?) && task.ctx.Entry?)
  }

  /** A request past the device check of `ReplyWithLookup` or `ReplyWithCreate`. */
  predicate Checked(s: State, task: Task) {
    NeedsCheck(task) ==> OnRootDevice(s, task.node)
  }

  /** Every node the kernel holds is on the root's device. */
  ghost predicate Closed(s: State) {
    forall a: Addr :: s.lookups[a] > 0 ==> OnRootDevice(s, a)
  }

  ghost predicate AllChecked(s: State) {
    forall t | 0 <= t < |s.tasks| :: Checked(s, s.tasks[t])
  }

  /** The kernel takes a listing and counts a node of another device in it. */
  predicate TakesForeignListing(s: State, step: Step) {
    && step.Run? && step.choice.Accept? && step.task < |s.tasks| && s.tasks[step.task].Send?
    && step.choice.counted <= multiset(s.tasks[step.task].got)
    && exists a | a in step.choice.counted :: !OnRootDevice(s, a)
  }

  lemma DeviceKept(s: State, step: Step, s': State, a: Addr)
    requires Inv(s) && Exec(s, step) == Next(s') && OnRootDevice(s, a) && a in s'.heap
    ensures OnRootDevice(s', a)
  {
    StepKeepsObjects(s, step);
  }

  /** A request that did not move stays checked. */
  lemma CheckedKept(s: State, step: Step, s': State, t: nat)
    requires Inv(s) && Exec(s, step) == Next(s') && t < |s.tasks| && t < |s'.tasks|
    requires s'.tasks[t] == s.tasks[t] && Checked(s, s.tasks[t])
    ensures Checked(s', s'.tasks[t])
  {
    NextIsGood(s, step, s');
    if NeedsCheck(s'.tasks[t]) {
      NodeIsLive(s', t, s'.tasks[t].node);
      DeviceKept(s, step, s', s'.tasks[t].node);
    }
  }

  lemma KernelMoves(s: State, event: Event, s': State)
    requires KernelStep(s, event) == Next(s')
    ensures |s'.tasks| == |s.tasks| + 1 && s'.tasks[..|s.tasks|] == s.tasks
    ensures Checked(s', s'.tasks[|s.tasks|]) && s'.lookups <= s.lookups
  {}

  lemma HeldChecks(s: State, t: nat, parent: Addr, ctx: Context, node: Addr, choice: Choice)
    requires t < |s.tasks| && node in s.heap && node != ROOT_ID && (parent == ROOT_ID || OnRootDevice(s, parent))
    requires HeldStep(s, t, parent, ctx, node, choice).Next?
    ensures ctx.Entry? && !HeldStep(s, t, parent, ctx, node, choice).state.tasks[t].Unwind? ==> OnRootDevice(s, node)
  {}

  lemma CheckCarried(s: State, task: Task, next: Task)
    requires Checked(s, task) && Follows(task, next) && !task.Held? && NeedsCheck(next)
    ensures OnRootDevice(s, next.node)
  {}

  /** The device check compares with the parent, and the parent is on the root's
      device because the kernel holds it. */
  lemma CheckEnforced(s: State, t: nat, choice: Choice, s': State)
    requires Inv(s) && Closed(s) && AllChecked(s) && RunTask(s, t, choice) == Next(s')
    ensures t < |s'.tasks| && Checked(s', s'.tasks[t])
  {
    RunOrdered(s, t, choice);
    RunSafe(s, t, choice);
    if NeedsCheck(s'.tasks[t]) {
      NodeIsLive(s', t, s'.tasks[t].node);
      if s.tasks[t].Held? {
        HeldEnforced(s, t, choice);
      } else {
        assert Checked(s, s.tasks[t]);
        CheckCarried(s, s.tasks[t], s'.tasks[t]);
      }
      DeviceKept(s, Run(t, choice), s', s'.tasks[t].node);
    }
  }

  lemma HeldEnforced(s: State, t: nat, choice: Choice)
    requires Inv(s) && Closed(s) && t < |s.tasks| && s.tasks[t].Held? && RunTask(s, t, choice).Next?
    requires NeedsCheck(RunTask(s, t, choice).state.tasks[t])
    ensures OnRootDevice(s, RunTask(s, t, choice).state.tasks[t].node)
  {
    RunOrdered(s, t, choice);
    NodeIsLive(s, t, s.tasks[t].node);
    ParentOnRootDevice(s, t);
    HeldChecks(s, t, s.tasks[t].parent, s.tasks[t].ctx, s.tasks[t].node, choice);
  }

  lemma ParentOnRootDevice(s: State, t: nat)
    requires Inv(s) && Closed(s) && t < |s.tasks| && s.tasks[t].Held?
    ensures s.tasks[t].parent == ROOT_ID || OnRootDevice(s, s.tasks[t].parent)
  {
    assert NamesKnown(s, s.tasks[t]);
    assert Known(s, s.tasks[t].parent);
  }

  lemma EntryKeepsClosed(s: State, s': State, node: Addr)
    requires Closed(s) && s'.heap == s.heap && s'.root == s.root
    requires s'.lookups == s.lookups || (OnRootDevice(s, node) && s'.lookups == s.lookups + multiset{node})
    ensures Closed(s')
  {}

  lemma ListingKeepsClosed(s: State, s': State, counted: multiset<Addr>)
    requires Closed(s) && s'.heap == s.heap && s'.root == s.root && s'.lookups == s.lookups + counted
    ensures Closed(s') <==> forall a | a in counted :: OnRootDevice(s, a)
  {
    forall a | a in counted ensures s'.lookups[a] > 0 {}
    forall a: Addr | s'.lookups[a] > 0 ensures s.lookups[a] > 0 || a in counted {}
  }

  lemma ReplyGrants(s: State, t: nat, choice: Choice, s': State)
    requires RunTask(s, t, choice) == Next(s') && t < |s.tasks| && TakenReply(s.tasks[t], choice)
    ensures s.tasks[t].Granted? ==> s'.lookups == s.lookups + multiset{s.tasks[t].node}
    ensures s.tasks[t].Opening? ==> s'.lookups == s.lookups
    ensures s.tasks[t].Send? ==> s'.lookups == s.lookups + choice.counted
  {}

  lemma ReplyKeepsClosed(s: State, t: nat, choice: Choice, s': State)
    requires Closed(s) && t < |s.tasks| && RunTask(s, t, choice) == Next(s')
    requires TakenReply(s.tasks[t], choice)
    requires Checked(s, s.tasks[t])
    ensures TakesForeignListing(s, Run(t, choice)) <==> !Closed(s')
  {
    RunMovesOthers(s, t, choice);
    ReplyGrants(s, t, choice, s');
    if s.tasks[t].Send? {
      ListingKeepsClosed(s, s', choice.counted);
    } else {
      EntryKeepsClosed(s, s', s.tasks[t].node);
    }
  }

  /** Closure is lost in exactly the steps in which the kernel takes a listing with a
      foreign node: lookups and creates never lose it. */
  lemma StepKeepsClosed(s: State, step: Step, s': State)
    requires Inv(s) && Closed(s) && AllChecked(s) && Exec(s, step) == Next(s')
    ensures Closed(s') <==> !TakesForeignListing(s, step)
    ensures AllChecked(s')
  {
    match step {
      case Kernel(event) => KernelKeepsChecked(s, event, s'); KernelKeepsClosed(s, event, s');
      case Run(t, choice) => RunKeepsChecked(s, t, choice, s'); RunKeepsClosedStep(s, t, choice, s');
    }
  }

  lemma KernelKeepsClosed(s: State, event: Event, s': State)
    requires Inv(s) && Closed(s) && KernelStep(s, event) == Next(s')
    ensures Closed(s')
  {
    KernelSafe(s, event);
    KernelMoves(s, event, s');
    LookupsKeepClosed(s, Kernel(event), s');
  }

  lemma KernelKeepsChecked(s: State, event: Event, s': State)
    requires Inv(s) && AllChecked(s) && KernelStep(s, event) == Next(s')
    ensures AllChecked(s')
  {
    KernelMoves(s, event, s');
    forall i | 0 <= i < |s'.tasks| ensures Checked(s', s'.tasks[i]) {
      if i < |s.tasks| {
        assert s'.tasks[..|s.tasks|][i] == s.tasks[i];
        CheckedKept(s, Kernel(event), s', i);
      }
    }
  }

  lemma RunKeepsChecked(s: State, t: nat, choice: Choice, s': State)
    requires Inv(s) && Closed(s) && AllChecked(s) && RunTask(s, t, choice) == Next(s')
    ensures AllChecked(s')
  {
    RunMoves(s, t, choice);
    forall i | 0 <= i < |s'.tasks| ensures Checked(s', s'.tasks[i]) {
      if i == t { CheckEnforced(s, t, choice, s'); } else { CheckedKept(s, Run(t, choice), s', i); }
    }
  }

  lemma RunKeepsClosedStep(s: State, t: nat, choice: Choice, s': State)
    requires Inv(s) && Closed(s) && AllChecked(s) && RunTask(s, t, choice) == Next(s')
    ensures Closed(s') <==> !TakesForeignListing(s, Run(t, choice))
  {
    RunMoves(s, t, choice);
    RunSafe(s, t, choice);
    if TakenReply(s.tasks[t], choice) {
      assert Checked(s, s.tasks[t]);
      ReplyKeepsClosed(s, t, choice, s');
    } else {
      LookupsKeepClosed(s, Run(t, choice), s');
    }
  }

  lemma LookupsKeepClosed(s: State, step: Step, s': State)
    requires Inv(s) && Closed(s) && Exec(s, step) == Next(s') && Inv(s') && s'.lookups <= s.lookups
    ensures Closed(s')
  {
    forall a: Addr | s'.lookups[a] > 0 ensures OnRootDevice(s', a) {
      CountedIsLive(s', a);
      DeviceKept(s, step, s', a);
    }
  }

  // ---- Runs

  /** Somewhere in the run the kernel takes a listing with a foreign node. */
  predicate MeetsForeignListing(s: State, steps: seq<Step>)
    decreases |steps|
  {
    && steps != []
    && (TakesForeignListing(s, steps[0])
        || (Exec(s, steps[0]).Next? && MeetsForeignListing(Exec(s, steps[0]).state, steps[1..])))
  }

  lemma {:induction false} RunKeepsClosed(s: State, steps: seq<Step>)
    requires Inv(s) && Closed(s) && AllChecked(s) && ExecAll(s, steps).Next?
    requires !MeetsForeignListing(s, steps)
    ensures Closed(ExecAll(s, steps).state)
    decreases |steps|
  {
    if steps != [] {
      var s' := Exec(s, steps[0]).state;
      StepSafe(s, steps[0]);
      StepKeepsClosed(s, steps[0], s');
      RunKeepsClosed(s', steps[1..]);
    }
  }

  predicate NoPlusTask(s: State) {
    forall t | 0 <= t < |s.tasks| :: !ListsAttributes(s.tasks[t])
  }

  predicate NoPlusRequest(steps: seq<Step>) {
    forall i | 0 <= i < |steps| :: !(steps[i].Kernel? && steps[i].event.ReadDir? && steps[i].event.plus)
  }

  lemma KernelKeepsNoPlus(s: State, event: Event, s': State)
    requires NoPlusTask(s) && KernelStep(s, event) == Next(s') && !(event.ReadDir? && event.plus)
    ensures NoPlusTask(s')
  {
    KernelMoves(s, event, s');
    assert !ListsAttributes(s'.tasks[|s.tasks|]);
    forall i | 0 <= i < |s.tasks| ensures !ListsAttributes(s'.tasks[i]) {
      assert s'.tasks[..|s.tasks|][i] == s.tasks[i];
    }
  }

  lemma StepKeepsNoPlus(s: State, step: Step, s': State)
    requires NoPlusTask(s) && Exec(s, step) == Next(s')
    requires !(step.Kernel? && step.event.ReadDir? && step.event.plus)
    ensures NoPlusTask(s')
  {
    match step {
      case Kernel(event) => KernelKeepsNoPlus(s, event, s');
      case Run(t, choice) =>
        RunMoves(s, t, choice);
        RunOrdered(s, t, choice);
        FollowsKeepsPlain(s.tasks[t], s'.tasks[t]);
    }
  }

  /** A plain listing gives the kernel no node at all. */
  lemma {:induction false} NoPlusNoForeignListing(s: State, steps: seq<Step>)
    requires Inv(s) && NoPlusTask(s) && NoPlusRequest(steps)
    ensures !MeetsForeignListing(s, steps)
    decreases |steps|
  {
    if steps != [] {
      if steps[0].Run? && steps[0].task < |s.tasks| { assert TaskOk(s.tasks[steps[0].task]); }
      if Exec(s, steps[0]).Next? {
        StepSafe(s, steps[0]);
        StepKeepsNoPlus(s, steps[0], Exec(s, steps[0]).state);
        NoPlusNoForeignListing(Exec(s, steps[0]).state, steps[1..]);
      }
    }
  }

  /** If the kernel never asks for a listing with attributes, every node it ever holds
      is on the root's source device. */
  lemma WithoutReadDirPlusClosed(root: Inode, steps: seq<Step>, s: State)
    requires ExecAll(Init(root), steps) == Next(s) && NoPlusRequest(steps)
    ensures Closed(s)
  {
    InitOk(root);
    NoPlusNoForeignListing(Init(root), steps);
    RunKeepsClosed(Init(root), steps);
  }

  const THE_ROOT := Inode(Key(1, 1), 3, 0)

  const THE_MOUNT := Inode(Key(2, 7), 4, 0)

  /** A listing with attributes of the root of device 1 that meets one node of device
      2, taken by the kernel. */
  function MountPointListing(): seq<Step> {
    [Kernel(ReadDir(ROOT_ID, true)), Run(0, Descriptor(4)), Run(0, Attributes(Key(2, 7))), Run(0, Address(100)),
     Run(0, Proceed), Run(0, Proceed), Run(0, End), Run(0, Accept(multiset{100}))]
  }

  /** The state in which the request holds the foreign node. */
  function ForeignNodeHeld(): State {
    State(THE_ROOT, map[100 := THE_MOUNT], map[THE_MOUNT.key := Slot(1, 100)],
          map[3 := ByRoot, 4 := ByNode(100)], [Held(ROOT_ID, Listing(true, []), 100)], multiset{}, multiset{}, map[], 1)
  }

  lemma ForeignNodeResolved()
    ensures ExecAll(Init(THE_ROOT), MountPointListing()) == ExecAll(ForeignNodeHeld(), MountPointListing()[4..])
  {
    var steps := MountPointListing();
    var s0 := Init(THE_ROOT);
    var s1 := s0.(tasks := [Resolve(ROOT_ID, Listing(true, []))]);
    var s2 := s1.(tasks := [Opened(ROOT_ID, Listing(true, []), 4)], open := map[3 := ByRoot, 4 := ByTask(0)]);
    var s3 := s2.(tasks := [Resolved(ROOT_ID, Listing(true, []), THE_MOUNT)]);
    assert Exec(s0, steps[0]) == Next(s1);
    assert Exec(s1, steps[1]) == Next(s2);
    assert Exec(s2, steps[2]) == Next(s3);
    assert Exec(s3, steps[3]) == Next(ForeignNodeHeld());
    ExecOne(s0, steps);
    ExecOne(s1, steps[1..]);
    ExecOne(s2, steps[2..]);
    ExecOne(s3, steps[3..]);
  }

  function ForeignNodeListed(): State {
    ForeignNodeHeld().(tasks := [Resolve(ROOT_ID, Listing(true, [100]))], cache := map[THE_MOUNT.key := Slot(2, 100)])
  }

  lemma ForeignNodePlaced()
    ensures ExecAll(ForeignNodeHeld(), MountPointListing()[4..]) ==
      ExecAll(ForeignNodeListed(), MountPointListing()[6..])
  {
    var steps := MountPointListing()[4..];
    var s4 := ForeignNodeHeld();
    var s5 := s4.(tasks := [Described(ROOT_ID, Listing(true, []), 100)]);
    assert [] + [100] == [100];
    assert Exec(s4, steps[0]) == Next(s5);
    assert Exec(s5, steps[1]) == Next(ForeignNodeListed());
    ExecOne(s4, steps);
    ExecOne(s5, steps[1..]);
  }

  lemma ForeignNodeTaken()
    ensures var out := ExecAll(ForeignNodeListed(), MountPointListing()[6..]); out.Next? && !Closed(out.state)
  {
    var steps := MountPointListing()[6..];
    var s6 := ForeignNodeListed();
    var s7 := s6.(tasks := [Send(true, [100])]);
    var s8 := s7.(tasks := [Unwind([Drop(100)])], lookups := multiset{100});
    assert Drops([100]) == [Drop(100)];
    assert Exec(s6, steps[0]) == Next(s7);
    assert Exec(s7, steps[1]) == Next(s8);
    ExecOne(s6, steps);
    ExecOne(s7, steps[1..]);
    assert s8.lookups[100] > 0 && !OnRootDevice(s8, 100);
  }

  /** With it, a mount point in the listed directory suffices to leave the device. */
  lemma ReadDirPlusLeavesDevice()
    ensures var out := ExecAll(Init(THE_ROOT), MountPointListing()); out.Next? && !Closed(out.state)
  {
    ForeignNodeResolved();
    ForeignNodePlaced();
    ForeignNodeTaken();
  }
}
