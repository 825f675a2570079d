/** A request that runs while nothing else moves: its steps change the cache as the
    contract of its handler in PageAlignFS.dfy says. */
module ProtocolAlone {
  import opened RefCounts
  import opened Protocol
  import opened ProtocolInvariant
  import opened ProtocolSafety
  import opened ProtocolRuns

  predicate Alone(t: nat, steps: seq<Step>) {
    forall i | 0 <= i < |steps| :: steps[i].Run? && steps[i].task == t
  }

  /** The references that all but request `t` account for. */
  function Elsewhere(s: State, t: nat, a: Addr): int
    requires t < |s.tasks|
  {
    AllRefs(s.tasks, a) - Refs(s.tasks[t], a) + Owed(s, a)
  }

  lemma ElsewhereCounts(s: State, t: nat, a: Addr)
    requires CountsOk(s) && t < |s.tasks|
    ensures CountAt(s, a) == Elsewhere(s, t, a) + Refs(s.tasks[t], a)
    ensures Elsewhere(s, t, a) >= 0
  {
    assert CountAt(s, a) == AllRefs(s.tasks, a) + Owed(s, a);
    AllRefsContains(s.tasks, t, a);
  }

  /** All references the kernel was given. */
  function Given(s: State): multiset<Addr> {
    s.lookups + s.uncounted
  }

  ghost predicate GivenMore(s: State, s': State) {
    s.lookups <= s'.lookups && s.uncounted <= s'.uncounted
  }

  lemma ElsewhereOnlyGrows(s: State, t: nat, s': State, a: Addr)
    requires OnlyTask(s, t, s') && GivenMore(s, s')
    ensures Elsewhere(s', t, a) == Elsewhere(s, t, a) + (Given(s') - Given(s))[a]
    ensures Elsewhere(s', t, a) >= Elsewhere(s, t, a)
  {
    AllRefsReplace(s.tasks, t, s'.tasks[t], a);
    assert Given(s')[a] == Given(s)[a] + (Given(s') - Given(s))[a];
  }

  /** What others refer to stays as it is. */
  ghost predicate OthersKept(s: State, t: nat, s': State)
    requires t < |s.tasks|
  {
    forall a | a in s.heap && Elsewhere(s, t, a) > 0 :: a in s'.heap && s'.heap[a] == s.heap[a]
  }

  lemma StepKeepsOthers(s: State, t: nat, choice: Choice, s': State)
    requires Inv(s) && t < |s.tasks| && RunTask(s, t, choice) == Next(s')
    ensures Inv(s') && OnlyTask(s, t, s') && GivenMore(s, s') && OthersKept(s, t, s')
  {
    RunMoves(s, t, choice);
    LookupsGrow(s, t, choice, s');
    NextIsGood(s, Run(t, choice), s');
    forall a | a in s.heap && Elsewhere(s, t, a) > 0 ensures a in s'.heap && s'.heap[a] == s.heap[a] {
      ElsewhereOnlyGrows(s, t, s', a);
      ElsewhereCounts(s', t, a);
    }
  }

  lemma KeptThrough(s: State, t: nat, s1: State, s': State)
    requires OnlyTask(s, t, s1) && GivenMore(s, s1) && OthersKept(s, t, s1)
    requires OnlyTask(s1, t, s') && GivenMore(s1, s') && OthersKept(s1, t, s')
    ensures OnlyTask(s, t, s') && GivenMore(s, s') && OthersKept(s, t, s')
  {
    forall a | a in s.heap && Elsewhere(s, t, a) > 0 ensures a in s'.heap && s'.heap[a] == s.heap[a] {
      ElsewhereOnlyGrows(s, t, s1, a);
    }
  }

  lemma {:induction false} AloneKeepsOthers(s: State, t: nat, steps: seq<Step>, s': State)
    requires Inv(s) && t < |s.tasks| && Alone(t, steps) && ExecAll(s, steps) == Next(s')
    ensures Inv(s') && OnlyTask(s, t, s') && GivenMore(s, s') && OthersKept(s, t, s')
    decreases |steps|
  {
    if steps != [] {
      var s1 := Exec(s, steps[0]).state;
      StepKeepsOthers(s, t, steps[0].choice, s1);
      AloneKeepsOthers(s1, t, steps[1..], s');
      KeptThrough(s, t, s1, s');
    }
  }

  // ---- What the kernel was granted, as keys

  function KeysAt(heap: map<Addr, Inode>, nodes: seq<Addr>): multiset<Key>
    requires forall a | a in nodes :: a in heap
  {
    if nodes == [] then multiset{} else multiset{heap[nodes[0]].key} + KeysAt(heap, nodes[1..])
  }

  /** When one address has the key, the key counts as often as the address. */
  lemma {:induction false} KeysAtCount(heap: map<Addr, Inode>, nodes: seq<Addr>, k: Key, a: Addr)
    requires forall x | x in nodes :: x in heap
    requires forall x | x in heap :: heap[x].key == k <==> x == a
    ensures KeysAt(heap, nodes)[k] == multiset(nodes)[a]
  {
    if nodes != [] {
      assert nodes == [nodes[0]] + nodes[1..];
      KeysAtCount(heap, nodes[1..], k, a);
    }
  }

  lemma {:induction false} KeysAtNone(heap: map<Addr, Inode>, nodes: seq<Addr>, k: Key)
    requires forall x | x in nodes :: x in heap
    requires forall x | x in heap :: heap[x].key != k
    ensures KeysAt(heap, nodes)[k] == 0
  {
    if nodes != [] {
      KeysAtNone(heap, nodes[1..], k);
    }
  }

  lemma {:induction false} Listed(nodes: multiset<Addr>) returns (list: seq<Addr>)
    ensures multiset(list) == nodes
    decreases |nodes|
  {
    if nodes == multiset{} {
      list := [];
    } else {
      var a :| a in nodes;
      var rest := Listed(nodes - multiset{a});
      list := [a] + rest;
    }
  }

  // ---- Lookup, create and listings

  /** From one state to another every count moved by what the kernel was granted. */
  ghost predicate Granted(s: State, s': State, granted: seq<Addr>) {
    && Given(s') == Given(s) + multiset(granted)
    && (forall a: Addr :: CountAt(s', a) == CountAt(s, a) + multiset(granted)[a])
    && (forall a | a in s.heap :: a in s'.heap && s'.heap[a] == s.heap[a])
  }

  lemma GrantedAreLive(s: State, s': State, granted: seq<Addr>)
    requires Granted(s, s', granted)
    ensures forall a | a in granted :: a in s'.heap
  {
    forall a | a in granted ensures a in s'.heap {
      assert CountAt(s', a) == CountAt(s, a) + multiset(granted)[a];
      assert a in multiset(granted);
    }
  }

  lemma CountOfKey(s: State, k: Key)
    requires CacheOk(s)
    ensures k in s.cache ==> Count(s.cache, k) == CountAt(s, s.cache[k].node) > 0
    ensures forall a | a in s.heap :: s.heap[a].key == k <==> k in s.cache && s.cache[k].node == a
  {}

  lemma GrantedKey(s: State, s': State, granted: seq<Addr>, k: Key)
    requires CacheOk(s) && CacheOk(s') && Granted(s, s', granted)
    requires forall a | a in granted :: a in s'.heap
    ensures Count(s'.cache, k) == Count(s.cache, k) + KeysAt(s'.heap, granted)[k]
    ensures k in s'.cache <==> k in s.cache || KeysAt(s'.heap, granted)[k] > 0
    ensures k in s.cache ==> s'.cache[k].node == s.cache[k].node
  {
    CountOfKey(s, k);
    CountOfKey(s', k);
    if k in s'.cache {
      var a := s'.cache[k].node;
      KeysAtCount(s'.heap, granted, k, a);
      assert CountAt(s', a) == CountAt(s, a) + multiset(granted)[a];
      if a in s.heap { assert s.heap[a].key == k; }
    } else {
      KeysAtNone(s'.heap, granted, k);
    }
  }

  /** The balance the handlers' contracts speak of. */
  lemma GrantedShifts(s: State, s': State, granted: seq<Addr>)
    requires CacheOk(s) && CacheOk(s') && Granted(s, s', granted)
    ensures forall a | a in granted :: a in s'.heap
    ensures Shifted(s.cache, s'.cache, KeysAt(s'.heap, granted))
  {
    GrantedAreLive(s, s', granted);
    forall k: Key
      ensures Count(s'.cache, k) == Count(s.cache, k) + KeysAt(s'.heap, granted)[k]
      ensures k in s'.cache <==> k in s.cache || KeysAt(s'.heap, granted)[k] > 0
      ensures k in s.cache ==> s'.cache[k].node == s.cache[k].node
    {
      GrantedKey(s, s', granted, k);
    }
  }

  lemma NoRefs(task: Task)
    requires Finished(task)
    ensures forall a: Addr :: Refs(task, a) == 0
  {}

  lemma ArrivesEmpty(s: State, event: Event, s1: State)
    requires KernelStep(s, event) == Next(s1) && !event.ForgetMulti?
    ensures s1.heap == s.heap && s1.cache == s.cache && s1.lookups == s.lookups && s1.uncounted == s.uncounted
    ensures |s1.tasks| == |s.tasks| + 1
    ensures forall a: Addr :: Refs(s1.tasks[|s.tasks|], a) == 0
  {}

  lemma AloneCounts(s: State, t: nat, s': State, granted: seq<Addr>)
    requires Inv(s) && Inv(s') && OnlyTask(s, t, s') && GivenMore(s, s') && OthersKept(s, t, s')
    requires forall a: Addr :: Refs(s.tasks[t], a) == Refs(s'.tasks[t], a) == 0
    requires multiset(granted) == Given(s') - Given(s)
    ensures Granted(s, s', granted)
  {
    forall a: Addr ensures CountAt(s', a) == CountAt(s, a) + multiset(granted)[a] {
      ElsewhereCounts(s, t, a);
      ElsewhereCounts(s', t, a);
      ElsewhereOnlyGrows(s, t, s', a);
    }
    forall a | a in s.heap ensures a in s'.heap && s'.heap[a] == s.heap[a] {
      ElsewhereCounts(s, t, a);
    }
  }

  /** A request that is not a forget, run from its arrival to its end while nothing else
      moves, leaves the cache changed by exactly one reference for each entry the kernel
      took from it, whether it counts it or not. */
  lemma AloneShifts(s: State, event: Event, steps: seq<Step>, s': State) returns (granted: seq<Addr>)
    requires Inv(s) && !event.ForgetMulti? && KernelStep(s, event).Next?
    requires Alone(|s.tasks|, steps) && ExecAll(KernelStep(s, event).state, steps) == Next(s')
    requires |s.tasks| < |s'.tasks| && Finished(s'.tasks[|s.tasks|])
    ensures Given(s') == Given(s) + multiset(granted)
    ensures forall a | a in granted :: a in s'.heap
    ensures Shifted(s.cache, s'.cache, KeysAt(s'.heap, granted))
  {
    var t, s1 := |s.tasks|, KernelStep(s, event).state;
    ArrivesEmpty(s, event, s1);
    NextIsGood(s, Kernel(event), s1);
    AloneKeepsOthers(s1, t, steps, s');
    granted := Listed(Given(s') - Given(s1));
    NoRefs(s'.tasks[t]);
    AloneCounts(s1, t, s', granted);
    GrantedShifts(s1, s', granted);
  }

  // ---- A lookup, a create, a plain listing

  /** How many entries the kernel may still get from a request; a listing with
      attributes has no bound. */
  function StillToGrant(task: Task): nat {
    match task
    case CreateFile(_) => 1
    case Resolve(_, ctx) => One(ctx.Entry?)
    case Opened(_, ctx, _) => One(ctx.Entry?)
    case Resolved(_, ctx, _) => One(ctx.Entry?)
    case Held(_, ctx, _) => One(ctx.Entry?)
    case Probing(_, ctx, _, _) => One(ctx.Entry?)
    case Described(_, ctx, _) => One(ctx.Entry?)
    case Granted(_, _) => 1
    case Using(_, next, _) => One(next.Some?)
    case _ => 0
  }

  lemma FollowsGrantsLess(task: Task, next: Task)
    requires Follows(task, next) && !ListsAttributes(task)
    ensures StillToGrant(next) <= StillToGrant(task)
    ensures task.Granted? ==> StillToGrant(next) == 0
  {}

  lemma ReplyGrantsOne(s: State, t: nat, choice: Choice, s': State)
    requires RunTask(s, t, choice) == Next(s') && t < |s.tasks| && TakenReply(s.tasks[t], choice)
    ensures s.tasks[t].Granted? ==> |s'.lookups| == |s.lookups| + 1 && s'.uncounted == s.uncounted
    ensures s.tasks[t].Opening? || (s.tasks[t].Send? && s.tasks[t].got == []) ==>
      s'.lookups == s.lookups && s'.uncounted == s.uncounted
  {}

  lemma StepGrantsWithin(s: State, t: nat, choice: Choice, s': State)
    requires Inv(s) && t < |s.tasks| && RunTask(s, t, choice) == Next(s') && !ListsAttributes(s.tasks[t])
    ensures t < |s'.tasks| && !ListsAttributes(s'.tasks[t])
    ensures s'.uncounted == s.uncounted
    ensures |s'.lookups| + StillToGrant(s'.tasks[t]) <= |s.lookups| + StillToGrant(s.tasks[t])
  {
    RunMoves(s, t, choice);
    RunOrdered(s, t, choice);
    FollowsKeepsPlain(s.tasks[t], s'.tasks[t]);
    FollowsGrantsLess(s.tasks[t], s'.tasks[t]);
    if TakenReply(s.tasks[t], choice) {
      assert TaskOk(s.tasks[t]);
      ReplyGrantsOne(s, t, choice, s');
    }
  }

  lemma {:induction false} AloneGrantsWithin(s: State, t: nat, steps: seq<Step>, s': State)
    requires Inv(s) && t < |s.tasks| && !ListsAttributes(s.tasks[t]) && Alone(t, steps) && ExecAll(s, steps) == Next(s')
    ensures s'.uncounted == s.uncounted && |s'.lookups| <= |s.lookups| + StillToGrant(s.tasks[t])
    decreases |steps|
  {
    if steps != [] {
      var s1 := Exec(s, steps[0]).state;
      StepGrantsWithin(s, t, steps[0].choice, s1);
      NextIsGood(s, steps[0], s1);
      AloneGrantsWithin(s1, t, steps[1..], s');
    }
  }

  lemma ArrivesToGrant(s: State, event: Event, s1: State)
    requires KernelStep(s, event) == Next(s1) && !event.ForgetMulti? && !(event.ReadDir? && event.plus)
    ensures |s1.tasks| == |s.tasks| + 1 && !ListsAttributes(s1.tasks[|s.tasks|])
    ensures StillToGrant(s1.tasks[|s.tasks|]) <= 1
    ensures event.ReadDir? ==> StillToGrant(s1.tasks[|s.tasks|]) == 0
  {}

  /** What `PageAlignFS.Lookup` promises, of its steps: the kernel took one entry and the
      cache holds one reference more, or nothing has changed.  It holds for every request
      other than a forget and a listing with attributes; a plain listing never gives the
      kernel anything. */
  lemma LookupAlone(s: State, event: Event, steps: seq<Step>, s': State)
    requires Inv(s) && !event.ForgetMulti? && !(event.ReadDir? && event.plus) && KernelStep(s, event).Next?
    requires Alone(|s.tasks|, steps) && ExecAll(KernelStep(s, event).state, steps) == Next(s')
    requires |s.tasks| < |s'.tasks| && Finished(s'.tasks[|s.tasks|])
    ensures s'.uncounted == s.uncounted
    ensures (s'.lookups == s.lookups && s'.cache == s.cache)
      || (!event.ReadDir? && exists node :: node in s'.heap && s'.lookups == s.lookups + multiset{node}
                                 && Shifted(s.cache, s'.cache, multiset{s'.heap[node].key}))
  {
    var s1 := KernelStep(s, event).state;
    var granted := AloneShifts(s, event, steps, s');
    ArrivesEmpty(s, event, s1);
    ArrivesToGrant(s, event, s1);
    NextIsGood(s, Kernel(event), s1);
    AloneGrantsWithin(s1, |s.tasks|, steps, s');
    SameUncounted(s.lookups, s'.lookups, multiset(granted), s.uncounted);
    assert |s'.lookups| == |s.lookups| + |multiset(granted)| == |s.lookups| + |granted|;
    AtMostOne(s, s', granted);
  }

  lemma SameUncounted(lookups: multiset<Addr>, lookups': multiset<Addr>, granted: multiset<Addr>,
                      uncounted: multiset<Addr>)
    requires lookups' + uncounted == lookups + uncounted + granted
    ensures lookups' == lookups + granted
  {
    forall a: Addr ensures lookups'[a] == (lookups + granted)[a] {
      assert (lookups' + uncounted)[a] == (lookups + uncounted + granted)[a];
    }
  }

  lemma AtMostOne(s: State, s': State, granted: seq<Addr>)
    requires |granted| <= 1 && s'.lookups == s.lookups + multiset(granted) && forall a | a in granted :: a in s'.heap
    requires Shifted(s.cache, s'.cache, KeysAt(s'.heap, granted))
    ensures granted == [] ==> s'.lookups == s.lookups && s'.cache == s.cache
    ensures granted != [] ==>
      && granted[0] in s'.heap && s'.lookups == s.lookups + multiset{granted[0]}
      && Shifted(s.cache, s'.cache, multiset{s'.heap[granted[0]].key})
  {
    if granted == [] {
      ShiftedByNothing(s.cache, s'.cache);
    } else {
      assert granted == [granted[0]];
      assert KeysAt(s'.heap, granted) == multiset{s'.heap[granted[0]].key};
    }
  }

  // ---- Forgets

  /** The batch as the cache sees it. */
  function BatchKeys(heap: map<Addr, Inode>, batch: seq<Forget>): seq<(Key, uint64)>
    requires forall f | f in batch :: f.node in heap
  {
    if batch == [] then [] else [(heap[batch[0].node].key, batch[0].nlookup)] + BatchKeys(heap, batch[1..])
  }

  lemma {:induction false} BatchKeysSame(heap: map<Addr, Inode>, heap': map<Addr, Inode>, batch: seq<Forget>)
    requires forall f | f in batch :: f.node in heap && f.node in heap' && heap'[f.node] == heap[f.node]
    ensures BatchKeys(heap', batch) == BatchKeys(heap, batch)
  {
    if batch != [] {
      BatchKeysSame(heap, heap', batch[1..]);
    }
  }

  lemma {:induction false} BatchRefersTo(batch: seq<Forget>, f: Forget)
    requires f in batch && f.nlookup > 0
    ensures BatchRefs(batch)[f.node] > 0
  {
    if batch[0] != f {
      BatchRefersTo(batch[1..], f);
    }
  }

  lemma BatchIsLive(s: State, t: nat)
    requires Inv(s) && t < |s.tasks| && s.tasks[t].Forgetting?
    ensures forall f | f in s.tasks[t].batch :: f.node in s.heap && f.node != ROOT_ID
  {
    assert TaskOk(s.tasks[t]);
    forall f | f in s.tasks[t].batch ensures f.node in s.heap && f.node != ROOT_ID {
      BatchRefersTo(s.tasks[t].batch, f);
      NodeIsLive(s, t, f.node);
    }
  }

  lemma UnrefSteps(s: State, t: nat, node: Addr, n: uint64, task: Task, s': State)
    requires t < |s.tasks| && node in s.heap && node != ROOT_ID && DoUnref(s, t, node, n, task) == Next(s')
    ensures RefCounts.Unref(s.cache, s.heap[node].key, n) == Updated(s'.cache) && s'.tasks == s.tasks[t := task]
  {}

  ghost predicate BatchHeld(s: State, t: nat) {
    t < |s.tasks| && s.tasks[t].Forgetting? && forall f | f in s.tasks[t].batch :: f.node in s.heap
  }

  /** The cache that the rest of the batch will leave. */
  function CacheAfter(s: State, t: nat): Cache<Addr>
    requires BatchHeld(s, t)
  {
    RefCounts.ForgetAll(s.cache, BatchKeys(s.heap, s.tasks[t].batch))
  }

  ghost predicate SameEnd(s: State, t: nat, s': State) {
    BatchHeld(s, t) && BatchHeld(s', t) && CacheAfter(s', t) == CacheAfter(s, t)
  }

  lemma FirstForgotten(s: State, t: nat, choice: Choice, s1: State)
    requires Inv(s) && BatchHeld(s, t) && RunTask(s, t, choice) == Next(s1)
    ensures s.tasks[t].batch != [] && s1.tasks == s.tasks[t := Forgetting(s.tasks[t].batch[1..])]
    ensures var first := s.tasks[t].batch[0];
      first.node in s.heap && RefCounts.Unref(s.cache, s.heap[first.node].key, first.nlookup) == Updated(s1.cache)
  {
    var batch := s.tasks[t].batch;
    BatchIsLive(s, t);
    assert batch != [] && batch[0] in batch;
    UnrefSteps(s, t, batch[0].node, batch[0].nlookup, Forgetting(batch[1..]), s1);
  }

  lemma RestHeld(s: State, t: nat, step: Step, s1: State)
    requires Inv(s) && BatchHeld(s, t) && Exec(s, step) == Next(s1) && s.tasks[t].batch != []
    requires s1.tasks == s.tasks[t := Forgetting(s.tasks[t].batch[1..])]
    ensures Inv(s1) && BatchHeld(s1, t)
    ensures forall f | f in s.tasks[t].batch[1..] ::
      f.node in s.heap && f.node in s1.heap && s1.heap[f.node] == s.heap[f.node]
  {
    NextIsGood(s, step, s1);
    StepKeepsObjects(s, step);
    BatchIsLive(s1, t);
  }

  lemma ForgetOne(s: State, t: nat, s1: State)
    requires BatchHeld(s, t) && s.tasks[t].batch != [] && s1.tasks == s.tasks[t := Forgetting(s.tasks[t].batch[1..])]
    requires forall f | f in s.tasks[t].batch[1..] :: f.node in s1.heap && s1.heap[f.node] == s.heap[f.node]
    requires var first := s.tasks[t].batch[0];
      first.node in s.heap && RefCounts.Unref(s.cache, s.heap[first.node].key, first.nlookup) == Updated(s1.cache)
    ensures SameEnd(s, t, s1)
  {
    BatchKeysSame(s.heap, s1.heap, s.tasks[t].batch[1..]);
  }

  lemma ForgettingStep(s: State, t: nat, choice: Choice, s1: State)
    requires Inv(s) && BatchHeld(s, t) && Exec(s, Run(t, choice)) == Next(s1)
    ensures Inv(s1) && SameEnd(s, t, s1)
  {
    FirstForgotten(s, t, choice, s1);
    RestHeld(s, t, Run(t, choice), s1);
    ForgetOne(s, t, s1);
  }

  lemma {:induction false} ForgettingAlone(s: State, t: nat, steps: seq<Step>, s': State)
    requires Inv(s) && BatchHeld(s, t) && Alone(t, steps) && ExecAll(s, steps) == Next(s')
    ensures SameEnd(s, t, s')
    decreases |steps|
  {
    if steps != [] {
      ForgettingStep(s, t, steps[0].choice, Exec(s, steps[0]).state);
      ForgettingAlone(Exec(s, steps[0]).state, t, steps[1..], s');
    }
  }

  lemma ForgettingEnds(s: State, t: nat, s': State)
    requires SameEnd(s, t, s') && Finished(s'.tasks[t])
    ensures s'.cache == CacheAfter(s, t)
  {}

  /** What `PageAlignFS.ForgetMulti` promises, of its steps: the single forgets in order. */
  lemma ForgetAlone(s: State, batch: seq<Forget>, steps: seq<Step>, s': State)
    requires Inv(s) && KernelStep(s, ForgetMulti(batch)).Next?
    requires Alone(|s.tasks|, steps) && ExecAll(KernelStep(s, ForgetMulti(batch)).state, steps) == Next(s')
    requires |s.tasks| < |s'.tasks| && Finished(s'.tasks[|s.tasks|])
    ensures forall f | f in batch :: f.node in s.heap
    ensures s'.cache == RefCounts.ForgetAll(s.cache, BatchKeys(s.heap, batch))
  {
    var s1 := KernelStep(s, ForgetMulti(batch)).state;
    NextIsGood(s, Kernel(ForgetMulti(batch)), s1);
    ForgetArrives(s, batch, s1);
    BatchIsLive(s1, |s.tasks|);
    ForgettingAlone(s1, |s.tasks|, steps, s');
    ForgettingEnds(s1, |s.tasks|, s');
  }

  lemma ForgetArrives(s: State, batch: seq<Forget>, s1: State)
    requires KernelStep(s, ForgetMulti(batch)) == Next(s1)
    ensures s1.heap == s.heap && s1.cache == s.cache
    ensures |s1.tasks| == |s.tasks| + 1 && s1.tasks[|s.tasks|] == Forgetting(batch)
  {}
}
