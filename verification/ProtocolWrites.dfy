/** `WriteBuf` replies first and reads its inode afterwards, when nothing holds the inode
    for it any more: the one handler that can dereference what is gone.  When it does,
    when it cannot, and a run in which it does. */
module ProtocolWrites {
  import opened Options
  import opened RefCounts
  import opened Protocol
  import opened ProtocolInvariant
  import opened ProtocolSafety
  import opened ProtocolRuns

  /** A step dereferences an inode that is gone exactly when it is the second read of an
      answered `WriteBuf` whose inode is gone. */
  lemma DanglingIsStale(s: State, step: Step)
    requires Inv(s)
    ensures Exec(s, step) == Fault(Dangling) <==> ReadsStale(s, step)
  {
    StepSafe(s, step);
  }

  /** Every stamp in use has been given out. */
  ghost predicate StampsOk(s: State) {
    && (forall a | a in s.heap :: s.heap[a].born < s.clock)
    && (forall t | 0 <= t < |s.tasks| :: StampOk(s, s.tasks[t]))
  }

  predicate StampOk(s: State, task: Task) {
    task.Answered? && task.node != ROOT_ID ==> task.inode.born < s.clock
  }

  /** An inode that is gone does not come back, although its address, its key and its
      descriptor number may. */
  lemma GoneStaysGone(s: State, step: Step, s': State, node: Addr, inode: Inode)
    requires Exec(s, step) == Next(s') && Gone(s, node, inode) && (node != ROOT_ID ==> inode.born < s.clock)
    ensures Gone(s', node, inode) && s.clock <= s'.clock
  {
    StepKeepsObjects(s, step);
  }

  lemma InitStamps(root: Inode)
    ensures StampsOk(Init(root))
  {}

  lemma StepKeepsStamps(s: State, step: Step, s': State)
    requires StampsOk(s) && Exec(s, step) == Next(s')
    ensures StampsOk(s')
  {
    StepKeepsObjects(s, step);
    match step {
      case Kernel(event) => KernelAdds(s, event, s'); KernelKeepsStamps(s, s');
      case Run(t, choice) => RunKeepsStamps(s, t, choice, s');
    }
  }

  lemma KernelKeepsStamps(s: State, s': State)
    requires StampsOk(s) && SameObjects(s, s')
    requires |s'.tasks| == |s.tasks| + 1 && s'.tasks[..|s.tasks|] == s.tasks && !s'.tasks[|s.tasks|].Answered?
    ensures StampsOk(s')
  {
    forall i | 0 <= i < |s'.tasks| ensures StampOk(s', s'.tasks[i]) {
      if i < |s.tasks| {
        assert s'.tasks[i] == s'.tasks[..|s.tasks|][i] == s.tasks[i];
        assert StampOk(s, s.tasks[i]);
      }
    }
  }

  lemma RunKeepsStamps(s: State, t: nat, choice: Choice, s': State)
    requires StampsOk(s) && SameObjects(s, s') && RunTask(s, t, choice) == Next(s')
    ensures StampsOk(s')
  {
    RunMoves(s, t, choice);
    RunOrdered(s, t, choice);
    forall i | 0 <= i < |s'.tasks| ensures StampOk(s', s'.tasks[i]) {
      if i != t {
        assert StampOk(s, s.tasks[i]);
      } else if s'.tasks[t].Answered? {
        OnlyWritesAreAnswered(s.tasks[t], s'.tasks[t]);
        WriteReplies(s, t, choice, s');
      }
    }
  }

  lemma {:induction false} RunKeepsStampsThroughout(s: State, steps: seq<Step>)
    requires StampsOk(s) && ExecAll(s, steps).Next?
    ensures StampsOk(ExecAll(s, steps).state)
    decreases |steps|
  {
    if steps != [] {
      StepKeepsStamps(s, steps[0], Exec(s, steps[0]).state);
      RunKeepsStampsThroughout(Exec(s, steps[0]).state, steps[1..]);
    }
  }

  /** A write that has been answered and whose inode is gone. */
  predicate Lost(s: State, t: nat) {
    t < |s.tasks| && s.tasks[t].Answered? && Gone(s, s.tasks[t].node, s.tasks[t].inode)
  }

  lemma LostStaysLost(s: State, t: nat, step: Step, s': State)
    requires StampsOk(s) && Lost(s, t) && Exec(s, step) == Next(s')
    ensures Lost(s', t)
  {
    assert StampOk(s, s.tasks[t]);
    GoneStaysGone(s, step, s', s.tasks[t].node, s.tasks[t].inode);
    match step {
      case Kernel(event) =>
        KernelAdds(s, event, s');
        assert s'.tasks[t] == s'.tasks[..|s.tasks|][t] == s.tasks[t];
      case Run(i, choice) =>
        RunMoves(s, i, choice);
        if i == t { LostCannotMove(s, t, choice); }
    }
  }

  lemma LostCannotMove(s: State, t: nat, choice: Choice)
    requires Lost(s, t)
    ensures !RunTask(s, t, choice).Next?
  {}

  /** Once the inode of an answered write is gone, no run lets that write return:
      whatever else happens, it is still waiting to read the inode, and the inode is
      still gone. */
  lemma {:induction false} LostWriteNeverReturns(s: State, t: nat, steps: seq<Step>)
    requires StampsOk(s) && Lost(s, t) && ExecAll(s, steps).Next?
    ensures Lost(ExecAll(s, steps).state, t)
    decreases |steps|
  {
    if steps != [] {
      var s' := Exec(s, steps[0]).state;
      LostStaysLost(s, t, steps[0], s');
      StepKeepsStamps(s, steps[0], s');
      LostWriteNeverReturns(s', t, steps[1..]);
    }
  }

  // ---- A kernel that waits

  /** The step does not forget the last lookup of an id that an answered write will read
      again. */
  predicate Spares(s: State, step: Step) {
    step.Kernel? && step.event.ForgetMulti? ==>
      forall t | 0 <= t < |s.tasks| && s.tasks[t].Answered? :: SparesNode(s, step.event.batch, s.tasks[t].node)
  }

  predicate SparesNode(s: State, batch: seq<Forget>, node: Addr) {
    BatchRefs(batch)[node] > 0 ==> BatchRefs(batch)[node] < s.lookups[node]
  }

  predicate Patient(s: State, steps: seq<Step>)
    decreases |steps|
  {
    steps != [] ==>
      (Spares(s, steps[0]) && (Exec(s, steps[0]).Next? ==> Patient(Exec(s, steps[0]).state, steps[1..])))
  }

  ghost predicate HeldForTask(s: State, task: Task) {
    task.Answered? ==> Known(s, task.node) && !Gone(s, task.node, task.inode)
  }

  /** The kernel still holds what answered writes will read. */
  ghost predicate AnsweredHeld(s: State) {
    forall t | 0 <= t < |s.tasks| :: HeldForTask(s, s.tasks[t])
  }

  /** An id the kernel goes on holding goes on meaning the same inode. */
  lemma KnownKeepsMeaning(s: State, step: Step, s': State, id: Addr)
    requires Inv(s) && Exec(s, step) == Next(s') && Known(s, id) && Known(s', id)
    ensures Deref(s', id) == Deref(s, id)
  {
    NextIsGood(s, step, s');
    StepKeepsObjects(s, step);
    KnownIsLive(s, id);
    KnownIsLive(s', id);
  }

  lemma KernelKeepsLookups(s: State, event: Event, s': State, id: Addr)
    requires KernelStep(s, event) == Next(s') && Known(s, id)
    requires event.ForgetMulti? ==> SparesNode(s, event.batch, id)
    ensures Known(s', id)
  {}

  lemma KernelAdds(s: State, event: Event, s': State)
    requires KernelStep(s, event) == Next(s')
    ensures |s'.tasks| == |s.tasks| + 1 && s'.tasks[..|s.tasks|] == s.tasks && !s'.tasks[|s.tasks|].Answered?
  {}

  lemma KernelKeepsAnsweredHeld(s: State, event: Event, s': State)
    requires Inv(s) && AnsweredHeld(s) && KernelStep(s, event) == Next(s') && Spares(s, Kernel(event))
    ensures AnsweredHeld(s')
  {
    KernelAdds(s, event, s');
    forall i | 0 <= i < |s'.tasks| && s'.tasks[i].Answered? ensures HeldForTask(s', s'.tasks[i]) {
      assert s'.tasks[i] == s'.tasks[..|s.tasks|][i] == s.tasks[i];
      assert HeldForTask(s, s.tasks[i]);
      KernelKeepsLookups(s, event, s', s.tasks[i].node);
      KnownKeepsMeaning(s, Kernel(event), s', s.tasks[i].node);
    }
  }

  lemma RunKeepsLookups(s: State, t: nat, choice: Choice, s': State, id: Addr)
    requires RunTask(s, t, choice) == Next(s') && Known(s, id)
    ensures Known(s', id)
  {
    LookupsGrow(s, t, choice, s');
  }

  lemma WriteReplies(s: State, t: nat, choice: Choice, s': State)
    requires RunTask(s, t, choice) == Next(s') && t < |s.tasks| && s.tasks[t].Writing?
    requires t < |s'.tasks| && s'.tasks[t].Answered?
    ensures s'.tasks[t].node == s.tasks[t].node && Deref(s, s.tasks[t].node) == Some(s'.tasks[t].inode)
  {}

  lemma OnlyWritesAreAnswered(task: Task, next: Task)
    requires Follows(task, next) && next.Answered?
    ensures task.Writing?
  {}

  lemma RunKeepsAnsweredHeld(s: State, t: nat, choice: Choice, s': State)
    requires Inv(s) && AnsweredHeld(s) && RunTask(s, t, choice) == Next(s')
    ensures AnsweredHeld(s')
  {
    RunMoves(s, t, choice);
    RunOrdered(s, t, choice);
    forall i | 0 <= i < |s'.tasks| && s'.tasks[i].Answered? ensures HeldForTask(s', s'.tasks[i]) {
      var node := s'.tasks[i].node;
      if i == t {
        OnlyWritesAreAnswered(s.tasks[t], s'.tasks[t]);
        WriteReplies(s, t, choice, s');
        assert NamesKnown(s, s.tasks[t]);
      } else {
        assert HeldForTask(s, s.tasks[i]);
      }
      RunKeepsLookups(s, t, choice, s', node);
      KnownKeepsMeaning(s, Run(t, choice), s', node);
    }
  }

  lemma StepKeepsAnsweredHeld(s: State, step: Step, s': State)
    requires Inv(s) && AnsweredHeld(s) && Exec(s, step) == Next(s') && Spares(s, step)
    ensures AnsweredHeld(s')
  {
    match step {
      case Kernel(event) => KernelKeepsAnsweredHeld(s, event, s');
      case Run(t, choice) => RunKeepsAnsweredHeld(s, t, choice, s');
    }
  }

  lemma HeldIsNotStale(s: State, step: Step)
    requires AnsweredHeld(s)
    ensures !ReadsStale(s, step)
  {
    if step.Run? && step.task < |s.tasks| {
      assert HeldForTask(s, s.tasks[step.task]);
    }
  }

  lemma {:induction false} PatientRunsReadNothingStale(s: State, steps: seq<Step>)
    requires Inv(s) && AnsweredHeld(s) && Patient(s, steps)
    ensures !MeetsStaleRead(s, steps)
    decreases |steps|
  {
    if steps != [] {
      HeldIsNotStale(s, steps[0]);
      if Exec(s, steps[0]).Next? {
        var s' := Exec(s, steps[0]).state;
        NextIsGood(s, steps[0], s');
        StepKeepsAnsweredHeld(s, steps[0], s');
        PatientRunsReadNothingStale(s', steps[1..]);
      }
    }
  }

  /** When the kernel waits with the last forget of an id until the writes to it have
      returned, no run faults before a count reaches its limit. */
  lemma PatientRunsAreSafe(root: Inode, steps: seq<Step>)
    requires Patient(Init(root), steps)
    ensures ExecAll(Init(root), steps).Fault? ==>
      ExecAll(Init(root), steps).why == Overflow && ReachesLimit(Init(root), steps)
  {
    InitOk(root);
    PatientRunsReadNothingStale(Init(root), steps);
    WhenRunsFault(root, steps);
  }

  // ---- The single-threaded loop

  /** The loop takes the next request when the handler of the last one has returned. */
  predicate SingleThreaded(s: State, steps: seq<Step>)
    decreases |steps|
  {
    steps != [] ==>
      ((steps[0].Kernel? ==> AllFinished(s))
       && (Exec(s, steps[0]).Next? ==> SingleThreaded(Exec(s, steps[0]).state, steps[1..])))
  }

  lemma {:induction false} SingleThreadedIsPatient(s: State, steps: seq<Step>)
    requires SingleThreaded(s, steps)
    ensures Patient(s, steps)
    decreases |steps|
  {
    if steps != [] && Exec(s, steps[0]).Next? {
      SingleThreadedIsPatient(Exec(s, steps[0]).state, steps[1..]);
    }
  }

  /** Under the single-threaded loop no run faults before a count reaches its limit,
      whatever the kernel forgets. */
  lemma SingleThreadedRunsAreSafe(root: Inode, steps: seq<Step>)
    requires SingleThreaded(Init(root), steps)
    ensures ExecAll(Init(root), steps).Fault? ==>
      ExecAll(Init(root), steps).why == Overflow && ReachesLimit(Init(root), steps)
  {
    SingleThreadedIsPatient(Init(root), steps);
    PatientRunsAreSafe(root, steps);
  }

  // ---- Every other handler

  predicate NoWriteTask(s: State) {
    forall t | 0 <= t < |s.tasks| :: !s.tasks[t].Writing? && !s.tasks[t].Answered?
  }

  predicate NoWriteRequest(steps: seq<Step>) {
    forall i | 0 <= i < |steps| :: !(steps[i].Kernel? && steps[i].event.Write?)
  }

  lemma StepKeepsNoWrite(s: State, step: Step, s': State)
    requires NoWriteTask(s) && Exec(s, step) == Next(s') && !(step.Kernel? && step.event.Write?)
    ensures NoWriteTask(s')
  {
    match step {
      case Kernel(event) => KernelKeepsNoWrite(s, event, s');
      case Run(t, choice) =>
        RunMoves(s, t, choice);
        RunOrdered(s, t, choice);
        NoOtherWrites(s.tasks[t], s'.tasks[t]);
    }
  }

  lemma NoOtherWrites(task: Task, next: Task)
    requires Follows(task, next) && !task.Writing? && !task.Answered?
    ensures !next.Writing? && !next.Answered?
  {}

  lemma KernelKeepsNoWrite(s: State, event: Event, s': State)
    requires NoWriteTask(s) && KernelStep(s, event) == Next(s') && !event.Write?
    ensures NoWriteTask(s')
  {
    KernelAdds(s, event, s');
    assert !s'.tasks[|s.tasks|].Writing?;
    forall i | 0 <= i < |s.tasks| ensures !s'.tasks[i].Writing? && !s'.tasks[i].Answered? {
      assert s'.tasks[i] == s'.tasks[..|s.tasks|][i] == s.tasks[i];
    }
  }

  lemma {:induction false} NoWriteNoStaleRead(s: State, steps: seq<Step>)
    requires NoWriteTask(s) && NoWriteRequest(steps)
    ensures !MeetsStaleRead(s, steps)
    decreases |steps|
  {
    if steps != [] && Exec(s, steps[0]).Next? {
      StepKeepsNoWrite(s, steps[0], Exec(s, steps[0]).state);
      NoWriteNoStaleRead(Exec(s, steps[0]).state, steps[1..]);
    }
  }

  /** Without `WriteBuf` no run faults before a count reaches its limit, under any
      interleaving and whatever the kernel forgets. */
  lemma OtherHandlersAreSafe(root: Inode, steps: seq<Step>)
    requires NoWriteRequest(steps)
    ensures ExecAll(Init(root), steps).Fault? ==>
      ExecAll(Init(root), steps).why == Overflow && ReachesLimit(Init(root), steps)
  {
    NoWriteNoStaleRead(Init(root), steps);
    WhenRunsFault(root, steps);
  }

  // ---- A run that faults

  const THE_ROOT := Inode(Key(1, 1), 3, 0)

  const THE_FILE := Inode(Key(1, 7), 4, 0)

  /** A file is looked up and opened. */
  function OpenRun(): seq<Step> {
    [Kernel(Lookup(ROOT_ID)), Run(0, Descriptor(4)), Run(0, Attributes(Key(1, 7))), Run(0, Address(100)),
     Run(0, Proceed), Run(0, Proceed), Run(0, Proceed), Run(0, Proceed),
     Kernel(Open(100)), Run(1, Descriptor(5)), Run(1, Proceed)]
  }

  /** A write to it is answered.  Then the file is released and its last lookup forgotten,
      in other threads, and after that the write reads its inode. */
  function LateForgetRun(): seq<Step> {
    [Kernel(Write(5)), Run(2, Proceed),
     Kernel(Release(5)), Run(3, Proceed), Run(3, Proceed),
     Kernel(ForgetMulti([Forget(100, 1)])), Run(4, Proceed),
     Run(2, Proceed)]
  }

  function FileFound(): State {
    State(THE_ROOT, map[100 := THE_FILE], map[THE_FILE.key := Slot(1, 100)], map[3 := ByRoot, 4 := ByNode(100)],
          [Held(ROOT_ID, Entry(None), 100)], multiset{}, multiset{}, map[], 1)
  }

  function FileKnown(): State {
    FileFound().(tasks := [Unwind([])], lookups := multiset{100})
  }

  function FileOpen(): State {
    FileKnown().(tasks := [Unwind([]), Unwind([])], open := map[3 := ByRoot, 4 := ByNode(100), 5 := ByHandle],
                 handles := map[5 := 100])
  }

  function WriteAnswered(): State {
    FileOpen().(tasks := [Unwind([]), Unwind([]), Answered(100, THE_FILE)])
  }

  function FileReleased(): State {
    FileKnown().(tasks := [Unwind([]), Unwind([]), Answered(100, THE_FILE), Unwind([])])
  }

  function FileForgotten(): State {
    State(THE_ROOT, map[], map[], map[3 := ByRoot],
          [Unwind([]), Unwind([]), Answered(100, THE_FILE), Unwind([]), Forgetting([])],
          multiset{}, multiset{}, map[], 1)
  }

  lemma FindFile()
    ensures ExecAll(Init(THE_ROOT), OpenRun()) == ExecAll(FileFound(), OpenRun()[4..])
  {
    var steps, s0 := OpenRun(), Init(THE_ROOT);
    var s1 := s0.(tasks := [Resolve(ROOT_ID, Entry(None))]);
    var s2 := s1.(tasks := [Opened(ROOT_ID, Entry(None), 4)], open := map[3 := ByRoot, 4 := ByTask(0)]);
    var s3 := s2.(tasks := [Resolved(ROOT_ID, Entry(None), THE_FILE)]);
    assert Exec(s0, steps[0]) == Next(s1);
    assert Exec(s1, steps[1]) == Next(s2);
    assert Exec(s2, steps[2]) == Next(s3);
    assert Exec(s3, steps[3]) == Next(FileFound());
    ExecOne(s0, steps);
    ExecOne(s1, steps[1..]);
    ExecOne(s2, steps[2..]);
    ExecOne(s3, steps[3..]);
  }

  lemma GiveFile()
    ensures ExecAll(FileFound(), OpenRun()[4..]) == ExecAll(FileKnown(), OpenRun()[8..])
  {
    var steps, s4 := OpenRun()[4..], FileFound();
    var s5 := s4.(tasks := [Described(ROOT_ID, Entry(None), 100)]);
    var s6 := s5.(tasks := [Granted(None, 100)], cache := map[THE_FILE.key := Slot(2, 100)]);
    var s7 := s6.(tasks := [Unwind([Drop(100)])], lookups := multiset{100});
    assert Exec(s4, steps[0]) == Next(s5);
    assert Exec(s5, steps[1]) == Next(s6);
    assert Exec(s6, steps[2]) == Next(s7);
    assert [Drop(100)][1..] == [];
    assert s7.cache[THE_FILE.key := Slot(1, 100)] == FileKnown().cache;
    assert Exec(s7, steps[3]) == Next(FileKnown());
    ExecOne(s4, steps);
    ExecOne(s5, steps[1..]);
    ExecOne(s6, steps[2..]);
    ExecOne(s7, steps[3..]);
  }

  lemma OpenIt()
    ensures ExecAll(FileKnown(), OpenRun()[8..]) == Next(FileOpen())
  {
    var steps, s8 := OpenRun()[8..], FileKnown();
    var s9 := s8.(tasks := [Unwind([]), OpenFile(100)]);
    var s10 := s9.(tasks := [Unwind([]), Opening(100, 5)], open := map[3 := ByRoot, 4 := ByNode(100), 5 := ByTask(1)]);
    assert Exec(s8, steps[0]) == Next(s9);
    assert Exec(s9, steps[1]) == Next(s10);
    assert Exec(s10, steps[2]) == Next(FileOpen());
    ExecOne(s8, steps);
    ExecOne(s9, steps[1..]);
    ExecOne(s10, steps[2..]);
  }

  lemma AnswerWrite()
    ensures ExecAll(FileOpen(), LateForgetRun()) == ExecAll(WriteAnswered(), LateForgetRun()[2..])
  {
    var steps, s0 := LateForgetRun(), FileOpen();
    var s1 := s0.(tasks := [Unwind([]), Unwind([]), Writing(100)]);
    assert Exec(s0, steps[0]) == Next(s1);
    assert Exec(s1, steps[1]) == Next(WriteAnswered());
    ExecOne(s0, steps);
    ExecOne(s1, steps[1..]);
  }

  lemma ReleaseIt()
    ensures ExecAll(WriteAnswered(), LateForgetRun()[2..]) == ExecAll(FileReleased(), LateForgetRun()[5..])
  {
    var steps, s2 := LateForgetRun()[2..], WriteAnswered();
    var s3 := s2.(tasks := s2.tasks + [Releasing(100, 5)], open := s2.open[5 := ByTask(3)], handles := map[]);
    var s4 := s3.(tasks := s2.tasks + [Unwind([Close(5)])]);
    assert Exec(s2, steps[0]) == Next(s3);
    assert Exec(s3, steps[1]) == Next(s4);
    assert [Close(5)][1..] == [];
    assert s4.open - {5} == FileReleased().open;
    assert Exec(s4, steps[2]) == Next(FileReleased());
    ExecOne(s2, steps);
    ExecOne(s3, steps[1..]);
    ExecOne(s4, steps[2..]);
  }

  lemma MayForgetFile()
    ensures MayForget(FileReleased(), [Forget(100, 1)]) && BatchRefs([Forget(100, 1)]) == multiset{100}
  {
    assert BatchRefs([Forget(100, 1)]) == Copies(100, 1) + BatchRefs([]);
    assert Copies(100, 1) == multiset{100};
    assert !Pinned(FileReleased(), 100);
  }

  lemma ForgetIt()
    ensures ExecAll(FileReleased(), LateForgetRun()[5..]) == Fault(Dangling)
  {
    var steps, s5 := LateForgetRun()[5..], FileReleased();
    var s6 := s5.(tasks := s5.tasks + [Forgetting([Forget(100, 1)])], lookups := multiset{});
    MayForgetFile();
    assert Exec(s5, steps[0]) == Next(s6);
    assert Exec(s6, steps[1]) == Next(FileForgotten());
    ExecOne(s5, steps);
    ExecOne(s6, steps[1..]);
    assert Exec(FileForgotten(), steps[2]) == Fault(Dangling);
  }

  /** Under the multi-threaded loop a run from start-up can dereference an inode that was
      erased. */
  lemma LateForgetDangles()
    ensures ExecAll(Init(THE_ROOT), OpenRun() + LateForgetRun()) == Fault(Dangling)
  {
    FindFile();
    GiveFile();
    OpenIt();
    ExecAllConcat(Init(THE_ROOT), OpenRun(), LateForgetRun());
    AnswerWrite();
    ReleaseIt();
    ForgetIt();
  }
}
