/** Which file handles the kernel is given, and for which inode. */
module ProtocolFiles {
  import opened Options
  import opened RefCounts
  import opened Protocol
  import opened ProtocolInvariant
  import opened ProtocolSafety
  import opened ProtocolRuns
  import opened ProtocolAlone

  /** A `Create` that has not replied yet. */
  predicate CarriesFile(task: Task) {
    match task
    case CreateFile(_) => true
    case Resolve(_, ctx) => ctx.Entry? && ctx.file.Some?
    case Opened(_, ctx, _) => ctx.Entry? && ctx.file.Some?
    case Resolved(_, ctx, _) => ctx.Entry? && ctx.file.Some?
    case Held(_, ctx, _) => ctx.Entry? && ctx.file.Some?
    case Probing(_, ctx, _, _) => ctx.Entry? && ctx.file.Some?
    case Described(_, ctx, _) => ctx.Entry? && ctx.file.Some?
    case Granted(file, _) => file.Some?
    case _ => false
  }

  predicate MayHandOver(task: Task) {
    CarriesFile(task) || task.OpenFile? || task.Opening?
  }

  lemma FollowsHandsOver(task: Task, next: Task)
    requires Follows(task, next)
    ensures !MayHandOver(task) ==> !MayHandOver(next)
    ensures CarriesFile(task) && !CarriesFile(next) ==> next.Unwind?
    ensures CarriesFile(task) && task.Granted? ==> next.Unwind?
  {}

  /** What a reply that the kernel takes hands over. */
  lemma ReplyHandsOver(s: State, t: nat, choice: Choice, s': State)
    requires RunTask(s, t, choice) == Next(s') && t < |s.tasks| && TakenReply(s.tasks[t], choice)
    ensures s.tasks[t].Granted? ==>
      && s'.lookups == s.lookups + multiset{s.tasks[t].node}
      && s'.handles == match s.tasks[t].file
                       case None => s.handles
                       case Some(fd) => s.handles[fd := s.tasks[t].node]
    ensures s.tasks[t].Opening? ==>
      s'.lookups == s.lookups && s'.handles == s.handles[s.tasks[t].fd := s.tasks[t].node]
    ensures s.tasks[t].Send? ==> s'.handles == s.handles
  {}

  lemma StepHandsOver(s: State, t: nat, choice: Choice, s': State)
    requires RunTask(s, t, choice) == Next(s') && t < |s.tasks| && !MayHandOver(s.tasks[t])
    ensures s'.handles == s.handles && t < |s'.tasks| && !MayHandOver(s'.tasks[t])
  {
    RunMoves(s, t, choice);
    RunOrdered(s, t, choice);
    FollowsHandsOver(s.tasks[t], s'.tasks[t]);
    if TakenReply(s.tasks[t], choice) { ReplyHandsOver(s, t, choice, s'); }
  }

  lemma {:induction false} NothingHandedOver(s: State, t: nat, steps: seq<Step>, s': State)
    requires t < |s.tasks| && !MayHandOver(s.tasks[t]) && Alone(t, steps) && ExecAll(s, steps) == Next(s')
    ensures s'.handles == s.handles
    decreases |steps|
  {
    if steps != [] {
      var s1 := Exec(s, steps[0]).state;
      StepHandsOver(s, t, steps[0].choice, s1);
      NothingHandedOver(s1, t, steps[1..], s');
    }
  }

  /** A handler on its way out gives the kernel nothing. */
  lemma UnwindGivesNothing(s: State, t: nat, steps: seq<Step>, s': State)
    requires Inv(s) && t < |s.tasks| && s.tasks[t].Unwind? && Alone(t, steps) && ExecAll(s, steps) == Next(s')
    ensures s'.handles == s.handles && s'.lookups == s.lookups
  {
    NothingHandedOver(s, t, steps, s');
    AloneKeepsOthers(s, t, steps, s');
    AloneGrantsWithin(s, t, steps, s');
    SameSize(s.lookups, s'.lookups);
  }

  lemma SameSize(lookups: multiset<Addr>, lookups': multiset<Addr>)
    requires lookups <= lookups' && |lookups'| <= |lookups|
    ensures lookups' == lookups
  {
    assert lookups' == lookups + (lookups' - lookups);
  }

  lemma TasksFileIsNoHandle(s: State, t: nat, fd: Fd)
    requires FdsOk(s) && t < |s.tasks| && Fds(s.tasks[t], fd) > 0
    ensures fd !in s.handles
  {
    TaskOwns(s, t, fd);
  }

  // ---- Create

  /** The kernel holds the entry, and a new handle that is open on the entry's inode. */
  ghost predicate GaveFile(s: State, s': State, node: Addr, fd: Fd) {
    && fd !in s.handles && s'.handles == s.handles[fd := node]
    && s'.lookups == s.lookups + multiset{node}
  }

  lemma {:induction false} CreateGives(s: State, t: nat, steps: seq<Step>, s': State)
    requires Inv(s) && t < |s.tasks| && CarriesFile(s.tasks[t]) && Alone(t, steps) && ExecAll(s, steps) == Next(s')
    ensures (s'.handles == s.handles && s'.lookups == s.lookups) || exists node, fd :: GaveFile(s, s', node, fd)
    decreases |steps|
  {
    if steps != [] {
      var s1 := Exec(s, steps[0]).state;
      NextIsGood(s, steps[0], s1);
      RunMoves(s, t, steps[0].choice);
      RunOrdered(s, t, steps[0].choice);
      FollowsHandsOver(s.tasks[t], s1.tasks[t]);
      if s1.tasks[t].Unwind? {
        UnwindGivesNothing(s1, t, steps[1..], s');
        if TakenReply(s.tasks[t], steps[0].choice) {
          CreateReplies(s, t, steps[0].choice, s1);
          assert GaveFile(s, s', s.tasks[t].node, s.tasks[t].file.value);
        }
      } else {
        CreateGives(s1, t, steps[1..], s');
        if s'.handles != s1.handles || s'.lookups != s1.lookups {
          var node, fd :| GaveFile(s1, s', node, fd);
          assert GaveFile(s, s', node, fd);
        }
      }
    }
  }

  lemma CreateReplies(s: State, t: nat, choice: Choice, s1: State)
    requires Inv(s) && t < |s.tasks| && CarriesFile(s.tasks[t]) && RunTask(s, t, choice) == Next(s1)
    requires TakenReply(s.tasks[t], choice)
    ensures s.tasks[t].Granted? && s.tasks[t].file.Some? && GaveFile(s, s1, s.tasks[t].node, s.tasks[t].file.value)
  {
    ReplyHandsOver(s, t, choice, s1);
    TasksFileIsNoHandle(s, t, s.tasks[t].file.value);
  }

  /** A `Create` run alone either changes nothing - lookups, handles, cache - or the kernel
      got a lookup on one node and a new handle on that same node, whose descriptor is
      now the handle's, and the cache holds one reference more to it. */
  lemma CreateAlone(s: State, parent: Addr, steps: seq<Step>, s': State)
    requires Inv(s) && KernelStep(s, Create(parent)).Next?
    requires Alone(|s.tasks|, steps) && ExecAll(KernelStep(s, Create(parent)).state, steps) == Next(s')
    requires |s.tasks| < |s'.tasks| && Finished(s'.tasks[|s.tasks|])
    ensures (s'.lookups == s.lookups && s'.handles == s.handles && s'.cache == s.cache)
      || exists node: Addr, fd: Fd ::
        && fd !in s.handles && s'.handles == s.handles[fd := node]
        && fd in s'.open && s'.open[fd] == ByHandle
        && node in s'.heap && s'.lookups == s.lookups + multiset{node}
        && Shifted(s.cache, s'.cache, multiset{s'.heap[node].key})
  {
    var s1 := KernelStep(s, Create(parent)).state;
    NextIsGood(s, Kernel(Create(parent)), s1);
    ArrivesEmpty(s, Create(parent), s1);
    AloneKeepsOthers(s1, |s.tasks|, steps, s');
    CreateGives(s1, |s.tasks|, steps, s');
    LookupAlone(s, Create(parent), steps, s');
    if s'.handles != s1.handles || s'.lookups != s1.lookups {
      var node, fd :| GaveFile(s1, s', node, fd);
      OneNode(s.lookups, s'.lookups, node);
      assert fd in s'.open && s'.open[fd] == ByHandle;
    }
  }

  lemma OneNode(lookups: multiset<Addr>, lookups': multiset<Addr>, node: Addr)
    requires lookups' == lookups + multiset{node}
    ensures lookups' != lookups
    ensures forall a: Addr :: lookups' == lookups + multiset{a} ==> a == node
  {
    assert lookups'[node] == lookups[node] + 1;
    forall a: Addr | lookups' == lookups + multiset{a} ensures a == node {
      assert lookups'[node] == lookups[node] + multiset{a}[node];
    }
  }

  // ---- Open

  predicate OpensNode(task: Task, node: Addr) {
    task == OpenFile(node) || (task.Opening? && task.node == node)
  }

  lemma OpenFollows(task: Task, next: Task, node: Addr)
    requires Follows(task, next) && OpensNode(task, node)
    ensures next.Unwind? || (task.OpenFile? && OpensNode(next, node))
  {}

  lemma OpeningKeepsNode(s: State, t: nat, choice: Choice, s1: State, node: Addr)
    requires RunTask(s, t, choice) == Next(s1) && t < |s.tasks| && OpensNode(s.tasks[t], node)
    ensures t < |s1.tasks| && (s1.tasks[t].Unwind? || OpensNode(s1.tasks[t], node))
  {
    RunOrdered(s, t, choice);
    OpenFollows(s.tasks[t], s1.tasks[t], node);
  }

  lemma {:induction false} OpenGives(s: State, t: nat, node: Addr, steps: seq<Step>, s': State)
    requires Inv(s) && t < |s.tasks| && OpensNode(s.tasks[t], node) && Alone(t, steps) && ExecAll(s, steps) == Next(s')
    ensures s'.lookups == s.lookups
    ensures s'.handles == s.handles || exists fd: Fd :: fd !in s.handles && s'.handles == s.handles[fd := node]
    decreases |steps|
  {
    if steps != [] {
      var s1 := Exec(s, steps[0]).state;
      NextIsGood(s, steps[0], s1);
      RunMoves(s, t, steps[0].choice);
      OpeningKeepsNode(s, t, steps[0].choice, s1, node);
      if TakenReply(s.tasks[t], steps[0].choice) {
        ReplyHandsOver(s, t, steps[0].choice, s1);
        TasksFileIsNoHandle(s, t, s.tasks[t].fd);
        RunOrdered(s, t, steps[0].choice);
        UnwindGivesNothing(s1, t, steps[1..], s');
      } else if s1.tasks[t].Unwind? {
        UnwindGivesNothing(s1, t, steps[1..], s');
      } else {
        OpenGives(s1, t, node, steps[1..], s');
      }
    }
  }

  /** An `Open` run alone gives the kernel at most a new handle, on the id it asked for. */
  lemma OpenAlone(s: State, node: Addr, steps: seq<Step>, s': State)
    requires Inv(s) && KernelStep(s, Open(node)).Next?
    requires Alone(|s.tasks|, steps) && ExecAll(KernelStep(s, Open(node)).state, steps) == Next(s')
    ensures s'.lookups == s.lookups
    ensures s'.handles == s.handles
      || exists fd: Fd ::
        && fd !in s.handles && s'.handles == s.handles[fd := node]
        && fd in s'.open && s'.open[fd] == ByHandle
  {
    var s1 := KernelStep(s, Open(node)).state;
    NextIsGood(s, Kernel(Open(node)), s1);
    AloneKeepsOthers(s1, |s.tasks|, steps, s');
    OpenGives(s1, |s.tasks|, node, steps, s');
    if s'.handles != s.handles {
      var fd :| fd !in s1.handles && s'.handles == s1.handles[fd := node];
      assert fd in s'.open && s'.open[fd] == ByHandle;
    }
  }

  /** No other request gives the kernel a handle, and `Release` takes back the one it is
      for. */
  lemma OthersGiveNoHandle(s: State, event: Event, steps: seq<Step>, s': State)
    requires Inv(s) && !event.Open? && !event.Create? && KernelStep(s, event).Next?
    requires Alone(|s.tasks|, steps) && ExecAll(KernelStep(s, event).state, steps) == Next(s')
    ensures s'.handles == if event.Release? then s.handles - {event.fd} else s.handles
  {
    ArrivalHandles(s, event);
    NothingHandedOver(KernelStep(s, event).state, |s.tasks|, steps, s');
  }

  lemma ArrivalHandles(s: State, event: Event)
    requires KernelStep(s, event).Next? && !event.Open? && !event.Create?
    ensures var s1 := KernelStep(s, event).state;
      && |s1.tasks| == |s.tasks| + 1 && !MayHandOver(s1.tasks[|s.tasks|])
      && s1.handles == if event.Release? then s.handles - {event.fd} else s.handles
  {}
}
