/** Every step keeps the invariant, and which steps fault. */
module ProtocolSafety {
  import opened Options
  import opened RefCounts
  import opened Protocol
  import opened ProtocolInvariant

  /** Some object has as many references as its 64-bit count can hold. */
  ghost predicate AtLimit(s: State) {
    exists a: Addr :: CountAt(s, a) + 1 == TWO_64
  }

  /** A step either cannot be taken, or leads to a good state; it faults only when a
      count would wrap. */
  ghost predicate Safe(s: State, out: Outcome) {
    match out
    case Next(s') => Inv(s')
    case Fault(why) => why == Overflow && AtLimit(s)
    case Disabled => true
  }

  lemma NamedIsLive(s: State, t: nat, id: Addr)
    requires AccountOk(s) && t < |s.tasks| && id in Names(s.tasks[t])
    ensures Deref(s, id).Some?
  {
    assert NamesKnown(s, s.tasks[t]);
    KnownIsLive(s, id);
  }

  lemma NodeIsLive(s: State, t: nat, node: Addr)
    requires AccountOk(s) && t < |s.tasks| && Refs(s.tasks[t], node) > 0
    ensures node in s.heap && node != ROOT_ID
  {
    ReferredIsLive(s, t, node);
  }

  // ---- One lemma for each state of a request

  lemma ExitSafe(s: State, t: nat, first: seq<Cleanup>, ctx: Context)
    requires Inv(s) && t < |s.tasks|
    requires forall a: Addr :: Refs(s.tasks[t], a) == TodoRefs(first, a) + CtxRefs(ctx, a)
    requires forall f: Fd :: Fds(s.tasks[t], f) == TodoFds(first, f) + CtxFds(ctx, f)
    ensures Inv(Goto(s, t, Unwind(first + ExitOf(ctx))))
  {
    forall n: nat
      ensures TodoRefs(first + ExitOf(ctx), n) == TodoRefs(first, n) + CtxRefs(ctx, n)
      ensures TodoFds(first + ExitOf(ctx), n) == TodoFds(first, n) + CtxFds(ctx, n)
    {
      ExitKeepsAccount(first, ctx, n);
    }
    ControlKeeps(s, t, Unwind(first + ExitOf(ctx)));
  }

  lemma ResolveSafe(s: State, t: nat, parent: Addr, ctx: Context, choice: Choice)
    requires Inv(s) && t < |s.tasks| && s.tasks[t] == Resolve(parent, ctx)
    ensures Safe(s, ResolveStep(s, t, parent, ctx, choice))
  {
    NamedIsLive(s, t, parent);
    assert TaskOk(s.tasks[t]);
    match choice {
      case End => if ctx.Listing? { ControlKeeps(s, t, Send(ctx.plus, ctx.got)); }
      case Fail =>
        ExitSafe(s, t, [], ctx);
        assert [] + ExitOf(ctx) == ExitOf(ctx);
      case Descriptor(fd) => if fd !in s.open { OpenKeeps(s, t, fd, Opened(parent, ctx, fd)); }
      case _ =>
    }
  }

  lemma OpenedSafe(s: State, t: nat, parent: Addr, ctx: Context, fd: Fd, choice: Choice)
    requires Inv(s) && t < |s.tasks| && s.tasks[t] == Opened(parent, ctx, fd)
    ensures Safe(s, RunTask(s, t, choice))
  {
    assert TaskOk(s.tasks[t]);
    match choice {
      case Fail =>
        forall n: nat ensures TodoRefs([Close(fd)], n) == 0 && TodoFds([Close(fd)], n) == One(fd == n) {}
        ExitSafe(s, t, [Close(fd)], ctx);
      case Attributes(key) => ControlKeeps(s, t, Resolved(parent, ctx, Inode(key, fd, 0)));
      case _ =>
    }
  }

  lemma ResolvedSafe(s: State, t: nat, parent: Addr, ctx: Context, inode: Inode, node: Addr)
    requires Inv(s) && t < |s.tasks| && s.tasks[t] == Resolved(parent, ctx, inode)
    ensures Safe(s, DoInsert(s, t, parent, ctx, inode, node))
  {
    if inode.key in s.cache {
      var found := s.cache[inode.key].node;
      assert CountAt(s, found) == s.cache[inode.key].refcnt;
      if CountAt(s, found) + 1 < TWO_64 {
        InsertHitKeeps(s, t, parent, ctx, inode, node);
      }
    } else if node !in s.heap && node != ROOT_ID {
      InsertNewKeeps(s, t, parent, ctx, inode, node);
    }
  }

  lemma OneDrop(node: Addr, n: nat)
    ensures TodoRefs([Drop(node)], n) == One(node == n) && TodoFds([Drop(node)], n) == 0
  {}

  lemma HeldExit(s: State, t: nat, parent: Addr, ctx: Context, node: Addr)
    requires Inv(s) && t < |s.tasks| && s.tasks[t] == Held(parent, ctx, node)
    ensures Inv(Goto(s, t, Unwind([Drop(node)] + ExitOf(ctx))))
  {
    forall n: nat ensures TodoRefs([Drop(node)], n) == One(node == n) && TodoFds([Drop(node)], n) == 0 {
      OneDrop(node, n);
    }
    ExitSafe(s, t, [Drop(node)], ctx);
  }

  lemma HeldGoesOn(s: State, t: nat, parent: Addr, ctx: Context, node: Addr)
    requires Inv(s) && t < |s.tasks| && s.tasks[t] == Held(parent, ctx, node)
    ensures Inv(Goto(s, t, Described(parent, ctx, node)))
  {
    assert TaskOk(s.tasks[t]);
    ControlKeeps(s, t, Described(parent, ctx, node));
  }

  lemma HeldSafe(s: State, t: nat, parent: Addr, ctx: Context, node: Addr, choice: Choice)
    requires Inv(s) && t < |s.tasks| && s.tasks[t] == Held(parent, ctx, node)
    ensures Safe(s, HeldStep(s, t, parent, ctx, node, choice))
  {
    NamedIsLive(s, t, parent);
    NodeIsLive(s, t, node);
    HeldChoices(s, t, parent, ctx, node, choice);
    match choice {
      case Descriptor(fd) => if fd !in s.open { HeldProbes(s, t, parent, ctx, node, fd); }
      case _ => HeldExit(s, t, parent, ctx, node); HeldGoesOn(s, t, parent, ctx, node);
    }
  }

  /** What the step can come to when parent and node are there. */
  lemma HeldChoices(s: State, t: nat, parent: Addr, ctx: Context, node: Addr, choice: Choice)
    requires t < |s.tasks| && Deref(s, parent).Some? && Deref(s, node).Some?
    ensures var out := HeldStep(s, t, parent, ctx, node, choice);
      || out == Disabled
      || (!choice.Descriptor? && out == Next(Goto(s, t, Unwind([Drop(node)] + ExitOf(ctx)))))
      || (!choice.Descriptor? && out == Next(Goto(s, t, Described(parent, ctx, node))))
      || (choice.Descriptor? && choice.fd !in s.open
          && out == DoOpen(s, t, choice.fd, Probing(parent, ctx, node, choice.fd)))
  {}

  lemma HeldProbes(s: State, t: nat, parent: Addr, ctx: Context, node: Addr, fd: Fd)
    requires Inv(s) && t < |s.tasks| && s.tasks[t] == Held(parent, ctx, node) && fd !in s.open
    ensures Safe(s, DoOpen(s, t, fd, Probing(parent, ctx, node, fd)))
  {
    assert TaskOk(s.tasks[t]);
    OpenKeeps(s, t, fd, Probing(parent, ctx, node, fd));
  }

  lemma CloseThenDrop(fd: Fd, node: Addr, n: nat)
    ensures TodoRefs([Close(fd), Drop(node)], n) == One(node == n)
    ensures TodoFds([Close(fd), Drop(node)], n) == One(fd == n)
  {
    assert [Close(fd), Drop(node)] == [Close(fd)] + [Drop(node)];
    TodoConcat([Close(fd)], [Drop(node)], n);
  }

  lemma ProbingSafe(s: State, t: nat, parent: Addr, ctx: Context, node: Addr, fd: Fd, choice: Choice)
    requires Inv(s) && t < |s.tasks| && s.tasks[t] == Probing(parent, ctx, node, fd)
    ensures Safe(s, ProbingStep(s, t, parent, ctx, node, fd, choice))
  {
    assert TaskOk(s.tasks[t]);
    match choice {
      case Proceed => CloseKeeps(s, t, fd, Described(parent, ctx, node));
      case Fail =>
        forall n: nat
          ensures TodoRefs([Close(fd), Drop(node)], n) == One(node == n)
          ensures TodoFds([Close(fd), Drop(node)], n) == One(fd == n)
        {
          CloseThenDrop(fd, node, n);
        }
        ExitSafe(s, t, [Close(fd), Drop(node)], ctx);
      case _ =>
    }
  }

  lemma RefSafe(s: State, t: nat, node: Addr, task: Task)
    requires Inv(s) && t < |s.tasks| && TaskOk(task) && Names(task) <= Names(s.tasks[t])
    requires Refs(s.tasks[t], node) > 0
    requires forall a: Addr :: Refs(task, a) == Refs(s.tasks[t], a) + One(a == node)
    requires forall f: Fd :: Fds(task, f) == Fds(s.tasks[t], f)
    ensures Safe(s, DoRef(s, t, node, task))
  {
    RefKeeps(s, t, node, task);
    ReferredIsLive(s, t, node);
  }

  lemma ListedSafe(s: State, t: nat, parent: Addr, ctx: Context, node: Addr)
    requires Inv(s) && t < |s.tasks| && s.tasks[t] == Described(parent, ctx, node) && ctx.Listing? && ctx.plus
    ensures Safe(s, DoRef(s, t, node, Resolve(parent, Listing(ctx.plus, ctx.got + [node]))))
  {
    RefSafe(s, t, node, Resolve(parent, Listing(ctx.plus, ctx.got + [node])));
  }

  lemma DescribedSafe(s: State, t: nat, parent: Addr, ctx: Context, node: Addr, choice: Choice)
    requires Inv(s) && t < |s.tasks| && s.tasks[t] == Described(parent, ctx, node)
    ensures Safe(s, DescribedStep(s, t, parent, ctx, node, choice))
  {
    assert TaskOk(s.tasks[t]);
    match (ctx, choice) {
      case (Entry(file), Proceed) => RefSafe(s, t, node, Granted(file, node));
      case (Listing(plus, got), Proceed) =>
        if plus {
          ListedSafe(s, t, parent, ctx, node);
        } else {
          ControlKeeps(s, t, Dropping(parent, ctx, node, false));
        }
      case (Listing(plus, got), End) => ControlKeeps(s, t, Dropping(parent, ctx, node, true));
      case _ =>
    }
  }

  lemma DroppingSafe(s: State, t: nat, parent: Addr, ctx: Context, node: Addr, last: bool)
    requires Inv(s) && t < |s.tasks| && s.tasks[t] == Dropping(parent, ctx, node, last)
    ensures Safe(s, DroppingStep(s, t, parent, ctx, node, last))
  {
    assert TaskOk(s.tasks[t]);
    UnrefKeeps(s, t, node, 1, if last then Send(ctx.plus, ctx.got) else Resolve(parent, ctx));
  }

  lemma CloseFileFds(file: Option<Fd>, n: nat)
    ensures TodoFds(CloseFile(file), n) == One(file == Some(n)) && TodoRefs(CloseFile(file), n) == 0
  {}

  lemma GrantedSafe(s: State, t: nat, file: Option<Fd>, node: Addr, choice: Choice)
    requires Inv(s) && t < |s.tasks| && s.tasks[t] == Granted(file, node)
    ensures Safe(s, GrantedStep(s, t, file, node, choice))
  {
    NodeIsLive(s, t, node);
    match choice {
      case Proceed => AcceptedKeeps(s, t, file, node);
      case Fail =>
        var todo := [Drop(node), Drop(node)] + CloseFile(file);
        forall n: nat ensures TodoRefs(todo, n) == 2 * One(node == n) && TodoFds(todo, n) == One(file == Some(n)) {
          CloseFileFds(file, n);
          assert [Drop(node), Drop(node)] == [Drop(node)] + [Drop(node)];
          OneDrop(node, n);
          TodoConcat([Drop(node)], [Drop(node)], n);
          TodoConcat([Drop(node), Drop(node)], CloseFile(file), n);
        }
        ControlKeeps(s, t, Unwind(todo));
      case _ =>
    }
  }

  /** The kernel takes the entry, then the file that came with it. */
  lemma AcceptedKeeps(s: State, t: nat, file: Option<Fd>, node: Addr)
    requires Inv(s) && t < |s.tasks| && s.tasks[t] == Granted(file, node) && node != ROOT_ID
    ensures Inv(DoHandOver(DoGrant(s, t, multiset{node}, Unwind([Drop(node)])), file, node))
  {
    match file {
      case None =>
        forall n: nat ensures TodoRefs([Drop(node)], n) == One(node == n) && TodoFds([Drop(node)], n) == 0 {
          OneDrop(node, n);
        }
        GrantKeeps(s, t, multiset{node}, multiset{}, Unwind([Drop(node)]));
        assert s.uncounted + multiset{} == s.uncounted;
      case Some(fd) =>
        TwoMoves(s, t, fd, node);
        FileNext(s, t, fd, node);
    }
  }

  lemma FileFirst(s: State, t: nat, fd: Fd, node: Addr)
    requires Inv(s) && t < |s.tasks| && s.tasks[t] == Granted(Some(fd), node) && node != ROOT_ID
    ensures var s1 := DoGrant(s, t, multiset{node}, Unwind([Close(fd), Drop(node)]));
      && Inv(s1) && Known(s1, node)
      && (forall n: nat :: Refs(s1.tasks[t], n) == One(node == n) && Fds(s1.tasks[t], n) == One(fd == n))
  {
    var todo := [Close(fd), Drop(node)];
    forall n: nat ensures TodoRefs(todo, n) == One(node == n) && TodoFds(todo, n) == One(fd == n) {
      CloseThenDrop(fd, node, n);
    }
    GrantKeeps(s, t, multiset{node}, multiset{}, Unwind(todo));
    assert s.uncounted + multiset{} == s.uncounted;
  }

  lemma FileNext(s: State, t: nat, fd: Fd, node: Addr)
    requires Inv(s) && t < |s.tasks| && s.tasks[t] == Granted(Some(fd), node) && node != ROOT_ID
    ensures var s1 := DoGrant(s, t, multiset{node}, Unwind([Close(fd), Drop(node)]));
      Inv(DoHandOver(Goto(s1, t, Unwind([Drop(node)])), Some(fd), node))
  {
    FileFirst(s, t, fd, node);
    var s1 := DoGrant(s, t, multiset{node}, Unwind([Close(fd), Drop(node)]));
    forall n: nat ensures TodoRefs([Drop(node)], n) == One(node == n) && TodoFds([Drop(node)], n) == 0 {
      OneDrop(node, n);
    }
    HandOverKeeps(s1, t, fd, node, Unwind([Drop(node)]));
  }

  lemma TwoMoves(s: State, t: nat, fd: Fd, node: Addr)
    requires t < |s.tasks|
    ensures var s1 := DoGrant(s, t, multiset{node}, Unwind([Close(fd), Drop(node)]));
      DoHandOver(Goto(s1, t, Unwind([Drop(node)])), Some(fd), node)
        == DoHandOver(DoGrant(s, t, multiset{node}, Unwind([Drop(node)])), Some(fd), node)
  {
    assert s.tasks[t := Unwind([Close(fd), Drop(node)])][t := Unwind([Drop(node)])]
      == s.tasks[t := Unwind([Drop(node)])];
  }

  lemma DropsTwice(got: seq<Addr>, n: nat)
    ensures TodoRefs(Drops(got) + Drops(got), n) == 2 * multiset(got)[n]
    ensures TodoFds(Drops(got) + Drops(got), n) == 0
  {
    TodoDrops(got, n);
    TodoConcat(Drops(got), Drops(got), n);
  }

  lemma ListingAccepted(s: State, t: nat, plus: bool, got: seq<Addr>, counted: multiset<Addr>)
    requires Inv(s) && t < |s.tasks| && s.tasks[t] == Send(plus, got) && counted <= multiset(got)
    ensures Inv(DoGrant(s.(uncounted := s.uncounted + (multiset(got) - counted)), t, counted, Unwind(Drops(got))))
  {
    forall n: nat ensures TodoRefs(Drops(got), n) == multiset(got)[n] && TodoFds(Drops(got), n) == 0 {
      TodoDrops(got, n);
    }
    GrantKeeps(s, t, counted, multiset(got) - counted, Unwind(Drops(got)));
  }

  lemma ListingRefused(s: State, t: nat, plus: bool, got: seq<Addr>)
    requires Inv(s) && t < |s.tasks| && s.tasks[t] == Send(plus, got)
    ensures Inv(Goto(s, t, Unwind(Drops(got) + Drops(got))))
  {
    var todo := Drops(got) + Drops(got);
    forall n: nat ensures TodoRefs(todo, n) == 2 * multiset(got)[n] && TodoFds(todo, n) == 0 {
      DropsTwice(got, n);
    }
    ControlKeeps(s, t, Unwind(todo));
  }

  lemma SendSafe(s: State, t: nat, plus: bool, got: seq<Addr>, choice: Choice)
    requires Inv(s) && t < |s.tasks| && s.tasks[t] == Send(plus, got)
    ensures Safe(s, SendStep(s, t, got, choice))
  {
    match choice {
      case Accept(counted) => if counted <= multiset(got) { ListingAccepted(s, t, plus, got, counted); }
      case Fail => ListingRefused(s, t, plus, got);
      case _ =>
    }
  }

  lemma UnwindSafe(s: State, t: nat, todo: seq<Cleanup>)
    requires Inv(s) && t < |s.tasks| && s.tasks[t] == Unwind(todo)
    ensures Safe(s, UnwindStep(s, t, todo))
  {
    if todo != [] {
      match todo[0] {
        case Close(fd) => CloseKeeps(s, t, fd, Unwind(todo[1..]));
        case Drop(node) => UnrefKeeps(s, t, node, 1, Unwind(todo[1..]));
      }
    }
  }

  lemma ForgettingSafe(s: State, t: nat, batch: seq<Forget>)
    requires Inv(s) && t < |s.tasks| && s.tasks[t] == Forgetting(batch) && batch != []
    ensures Safe(s, DoUnref(s, t, batch[0].node, batch[0].nlookup, Forgetting(batch[1..])))
  {
    assert TaskOk(s.tasks[t]);
    assert batch[0] in batch;
    UnrefKeeps(s, t, batch[0].node, batch[0].nlookup, Forgetting(batch[1..]));
  }

  lemma OpenSafe(s: State, t: nat, node: Addr, creates: bool, choice: Choice)
    requires Inv(s) && t < |s.tasks| && s.tasks[t] == if creates then CreateFile(node) else OpenFile(node)
    ensures Safe(s, OpenStep(s, t, node, creates, choice))
  {
    NamedIsLive(s, t, node);
    match choice {
      case Fail => ControlKeeps(s, t, Unwind([]));
      case Descriptor(fd) =>
        if fd !in s.open { FileOpened(s, t, node, creates, fd); }
      case _ =>
    }
  }

  lemma FileOpened(s: State, t: nat, node: Addr, creates: bool, fd: Fd)
    requires Inv(s) && t < |s.tasks| && fd !in s.open
    requires s.tasks[t] == if creates then CreateFile(node) else OpenFile(node)
    ensures Safe(s, DoOpen(s, t, fd, if creates then Resolve(node, Entry(Some(fd))) else Opening(node, fd)))
  {
    OpenKeeps(s, t, fd, if creates then Resolve(node, Entry(Some(fd))) else Opening(node, fd));
  }

  lemma OpeningSafe(s: State, t: nat, node: Addr, fd: Fd, choice: Choice)
    requires Inv(s) && t < |s.tasks| && s.tasks[t] == Opening(node, fd)
    ensures Safe(s, OpeningStep(s, t, node, fd, choice))
  {
    match choice {
      case Proceed =>
        assert NamesKnown(s, s.tasks[t]);
        HandOverKeeps(s, t, fd, node, Unwind([]));
      case Fail =>
        forall n: nat ensures TodoRefs([Close(fd)], n) == 0 && TodoFds([Close(fd)], n) == One(fd == n) {}
        ControlKeeps(s, t, Unwind([Close(fd)]));
      case _ =>
    }
  }

  lemma ReleasingSafe(s: State, t: nat, node: Addr, fd: Fd)
    requires Inv(s) && t < |s.tasks| && s.tasks[t] == Releasing(node, fd)
    ensures Safe(s, RunTask(s, t, Proceed))
    ensures RunTask(s, t, Proceed) == Next(Goto(s, t, Unwind([Close(fd)])))
  {
    NamedIsLive(s, t, node);
    forall n: nat ensures TodoRefs([Close(fd)], n) == 0 && TodoFds([Close(fd)], n) == One(fd == n) {}
    ControlKeeps(s, t, Unwind([Close(fd)]));
  }

  lemma UsingSafe(s: State, t: nat, nodes: set<Addr>, next: Option<Addr>, temp: Option<Fd>, choice: Choice)
    requires Inv(s) && t < |s.tasks| && s.tasks[t] == Using(nodes, next, temp)
    ensures Safe(s, UsingStep(s, t, nodes, next, temp, choice))
  {
    forall id | id in nodes ensures Deref(s, id).Some? { NamedIsLive(s, t, id); }
    assert TaskOk(s.tasks[t]);
    forall n: nat ensures TodoFds(CloseFile(temp), n) == One(temp == Some(n)) && TodoRefs(CloseFile(temp), n) == 0 {
      CloseFileFds(temp, n);
    }
    match choice {
      case Descriptor(fd) => if temp.None? && fd !in s.open { OpenKeeps(s, t, fd, Using(nodes, next, Some(fd))); }
      case End =>
        if next.Some? && temp.None? {
          ControlKeeps(s, t, Resolve(next.value, Entry(None)));
        } else {
          ControlKeeps(s, t, Unwind(CloseFile(temp)));
        }
      case Fail => ControlKeeps(s, t, Unwind(CloseFile(temp)));
      case _ =>
    }
  }

  lemma WritingSafe(s: State, t: nat, node: Addr, choice: Choice)
    requires Inv(s) && t < |s.tasks| && s.tasks[t] == Writing(node)
    ensures Safe(s, WritingStep(s, t, node, choice))
  {
    NamedIsLive(s, t, node);
    match choice {
      case Proceed => ControlKeeps(s, t, Answered(node, Deref(s, node).value));
      case Fail => ControlKeeps(s, t, Unwind([]));
      case _ =>
    }
  }

  lemma AnsweredSafe(s: State, t: nat, node: Addr, inode: Inode, choice: Choice)
    requires Inv(s) && t < |s.tasks| && s.tasks[t] == Answered(node, inode)
    ensures SafeUnlessStale(s, Run(t, choice), AnsweredStep(s, t, node, inode, choice))
  {
    if choice.Proceed? { ControlKeeps(s, t, Unwind([])); }
  }

  // ---- The step theorem

  /** A stale read is the one way to dereference what is not there. */
  ghost predicate SafeUnlessStale(s: State, step: Step, out: Outcome) {
    if ReadsStale(s, step) then out == Fault(Dangling) else Safe(s, out)
  }

  /** A request that works on a child of a directory. */
  predicate OnChild(task: Task) {
    task.Resolve? || task.Opened? || task.Resolved? || task.Held? || task.Probing? || task.Described? || task.Dropping?
  }

  lemma ChildSafe(s: State, t: nat, choice: Choice)
    requires Inv(s) && t < |s.tasks| && OnChild(s.tasks[t])
    ensures Safe(s, RunTask(s, t, choice))
  {
    match s.tasks[t] {
      case Resolve(parent, ctx) => ResolveSafe(s, t, parent, ctx, choice);
      case Opened(parent, ctx, fd) => OpenedSafe(s, t, parent, ctx, fd, choice);
      case Resolved(parent, ctx, inode) =>
        if choice.Address? { ResolvedSafe(s, t, parent, ctx, inode, choice.node); }
      case Held(parent, ctx, node) => HeldSafe(s, t, parent, ctx, node, choice);
      case Probing(parent, ctx, node, fd) => ProbingSafe(s, t, parent, ctx, node, fd, choice);
      case Described(parent, ctx, node) => DescribedSafe(s, t, parent, ctx, node, choice);
      case Dropping(parent, ctx, node, last) => DroppingSafe(s, t, parent, ctx, node, last);
    }
  }

  lemma OtherSafe(s: State, t: nat, choice: Choice)
    requires Inv(s) && t < |s.tasks| && !OnChild(s.tasks[t])
    ensures SafeUnlessStale(s, Run(t, choice), RunTask(s, t, choice))
  {
    match s.tasks[t] {
      case CreateFile(parent) => OpenSafe(s, t, parent, true, choice);
      case Granted(file, node) => GrantedSafe(s, t, file, node, choice);
      case Send(plus, got) => SendSafe(s, t, plus, got, choice);
      case Unwind(todo) => UnwindSafe(s, t, todo);
      case Forgetting(batch) => if batch != [] { ForgettingSafe(s, t, batch); }
      case OpenFile(node) => OpenSafe(s, t, node, false, choice);
      case Opening(node, fd) => OpeningSafe(s, t, node, fd, choice);
      case Releasing(node, fd) => ReleasingSafe(s, t, node, fd);
      case Writing(node) => WritingSafe(s, t, node, choice);
      case Answered(node, inode) => AnsweredSafe(s, t, node, inode, choice);
      case Using(nodes, next, temp) => UsingSafe(s, t, nodes, next, temp, choice);
    }
  }

  lemma RunSafe(s: State, t: nat, choice: Choice)
    requires Inv(s)
    ensures SafeUnlessStale(s, Run(t, choice), RunTask(s, t, choice))
  {
    if t < |s.tasks| {
      if OnChild(s.tasks[t]) { ChildSafe(s, t, choice); } else { OtherSafe(s, t, choice); }
    }
  }

  lemma ArrivalSafe(s: State, id: Addr, task: Task)
    requires Inv(s) && Known(s, id)
    requires task == Resolve(id, Entry(None)) || task == CreateFile(id) || task == Resolve(id, Listing(true, []))
      || task == Resolve(id, Listing(false, [])) || task == OpenFile(id) || task == Writing(id)
    ensures Inv(Arrive(s, task))
  {
    ArriveKeeps(s, task);
  }

  lemma UseArrivalSafe(s: State, nodes: set<Addr>, next: Option<Addr>)
    requires Inv(s) && (forall id | id in nodes :: Known(s, id)) && (next.Some? ==> next.value in nodes)
    ensures Inv(Arrive(s, Using(nodes, next, None)))
  {
    ArriveKeeps(s, Using(nodes, next, None));
  }

  lemma KernelSafe(s: State, event: Event)
    requires Inv(s)
    ensures Safe(s, KernelStep(s, event))
  {
    match event {
      case Lookup(parent) => if Known(s, parent) { ArrivalSafe(s, parent, Resolve(parent, Entry(None))); }
      case Create(parent) => if Known(s, parent) { ArrivalSafe(s, parent, CreateFile(parent)); }
      case ReadDir(dir, plus) => if Known(s, dir) { ArrivalSafe(s, dir, Resolve(dir, Listing(plus, []))); }
      case Open(node) => if Known(s, node) { ArrivalSafe(s, node, OpenFile(node)); }
      case Use(nodes, next) =>
        if (forall id | id in nodes :: Known(s, id)) && (next.Some? ==> next.value in nodes) {
          UseArrivalSafe(s, nodes, next);
        }
      case Write(fd) => if fd in s.handles { ArrivalSafe(s, s.handles[fd], Writing(s.handles[fd])); }
      case Release(fd) => if fd in s.handles { ReleaseKeeps(s, KernelStep(s, event).state, fd); }
      case ForgetMulti(batch) => if MayForget(s, batch) { ForgetKeeps(s, KernelStep(s, event).state, batch); }
    }
  }

  /** One step from a good state. */
  lemma StepSafe(s: State, step: Step)
    requires Inv(s)
    ensures SafeUnlessStale(s, step, Exec(s, step))
  {
    match step {
      case Kernel(event) => KernelSafe(s, event);
      case Run(t, choice) => RunSafe(s, t, choice);
    }
  }

  lemma NextIsGood(s: State, step: Step, s': State)
    requires Inv(s) && Exec(s, step) == Next(s')
    ensures Inv(s')
  {
    StepSafe(s, step);
  }
}
