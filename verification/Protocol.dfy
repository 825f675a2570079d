/** The reference protocol between the server and the kernel, as a step machine.

    Any number of requests are in flight.  A step is one atomic action of one of
    them - a cache operation, a descriptor call, a reply - or one action of the
    kernel.  Every call that can fail may fail, chosen by the step. */
module Protocol {
  import opened Options
  import opened RefCounts

  /** A node id is the address of an `Inode`, except for the root's. */
  type Addr = nat

  type Fd = nat

  const ROOT_ID: Addr := 1

  /** Addresses, keys and descriptor numbers come back; `born` tells apart the inodes
      that have lived in the cache, which stamps each one it takes over. */
  datatype Inode = Inode(key: Key, fd: Fd, born: nat)

  /** Who an open descriptor belongs to. */
  datatype Holder =
    | ByRoot
    | ByNode(node: Addr)
    | ByHandle
    | ByTask(task: nat)

  /** What the code around `FindOrCreateInode` holds: `ReplyWithLookup` nothing,
      `Create` its open file, `ReadDirInternal` the vector of shared pointers. */
  datatype Context =
    | Entry(file: Option<Fd>)
    | Listing(plus: bool, got: seq<Addr>)

  /** The effect of one destructor. */
  datatype Cleanup =
    | Close(fd: Fd)
    | Drop(node: Addr)

  datatype Forget = Forget(node: Addr, nlookup: uint64)

  /** Where a request stands, with the locals it still needs. */
  datatype Task =
    | CreateFile(parent: Addr)                             // Create: about to open the file
    | Resolve(parent: Addr, ctx: Context)                  // about to open a child (or to read the next entry)
    | Opened(parent: Addr, ctx: Context, fd: Fd)           // child open, about to stat it
    | Resolved(parent: Addr, ctx: Context, inode: Inode)   // about to insert it
    | Held(parent: Addr, ctx: Context, node: Addr)         // holds a shared pointer
    | Probing(parent: Addr, ctx: Context, node: Addr, fd: Fd) // has the file open to ask for its generation
    | Described(parent: Addr, ctx: Context, node: Addr)    // entry parameters filled in
    | Dropping(parent: Addr, ctx: Context, node: Addr, last: bool) // end of a listing iteration
    | Granted(file: Option<Fd>, node: Addr)                // kernel's reference taken, about to reply
    | Send(plus: bool, got: seq<Addr>)                     // listing complete, about to reply
    | Unwind(todo: seq<Cleanup>)                           // handler exits; Unwind([]) is finished
    | Forgetting(batch: seq<Forget>)
    | OpenFile(node: Addr)
    | Opening(node: Addr, fd: Fd)
    | Releasing(node: Addr, fd: Fd)
    | Writing(node: Addr)                                  // WriteBuf: about to copy and to reply
    | Answered(node: Addr, inode: Inode)                   // WriteBuf has replied, but will read its inode again
    | Using(nodes: set<Addr>, next: Option<Addr>, temp: Option<Fd>) // any other handler

  /** `lookups` is what the kernel counts and can give back.  `uncounted` is what it was
      given with a listing and does not count, as is the case for "." and "..". */
  datatype State = State(
    root: Inode,
    heap: map<Addr, Inode>,
    cache: Cache<Addr>,
    open: map<Fd, Holder>,
    tasks: seq<Task>,
    lookups: multiset<Addr>,
    uncounted: multiset<Addr>,
    handles: map<Fd, Addr>,
    clock: nat)

  datatype Reason =
    | Dangling       // an Inode is dereferenced that is no longer there
    | MissingEntry   // Ref or Unref finds no entry
    | CheckFailure   // the CHECK in Unref fires
    | BadClose       // a descriptor is closed that the closer does not own
    | Overflow       // a 64-bit count wraps

  datatype Outcome =
    | Next(state: State)
    | Fault(why: Reason)
    | Disabled

  datatype Choice =
    | Fail
    | Proceed
    | Accept(counted: multiset<Addr>)
    | End
    | Descriptor(fd: Fd)
    | Attributes(key: Key)
    | Address(node: Addr)

  datatype Event =
    | Lookup(parent: Addr)
    | Create(parent: Addr)
    | ReadDir(dir: Addr, plus: bool)
    | Open(node: Addr)
    | Use(nodes: set<Addr>, next: Option<Addr>)
    | Write(fd: Fd)
    | Release(fd: Fd)
    | ForgetMulti(batch: seq<Forget>)

  datatype Step =
    | Kernel(event: Event)
    | Run(task: nat, choice: Choice)

  // ---- What a request holds

  function Drops(nodes: seq<Addr>): seq<Cleanup> {
    if nodes == [] then [] else [Drop(nodes[0])] + Drops(nodes[1..])
  }

  function CloseFile(file: Option<Fd>): seq<Cleanup> {
    if file.Some? then [Close(file.value)] else []
  }

  /** The destructors a handler still owes when it leaves early, in the order in
      which they run: the cleanup guard first, then the vector it guards. */
  function ExitOf(ctx: Context): seq<Cleanup> {
    match ctx
    case Entry(file) => CloseFile(file)
    case Listing(plus, got) => Drops(got) + Drops(got)
  }

  function CtxRefs(ctx: Context, a: Addr): nat {
    if ctx.Listing? then 2 * multiset(ctx.got)[a] else 0
  }

  function TodoRefs(todo: seq<Cleanup>, a: Addr): nat {
    if todo == [] then 0 else (if todo[0] == Drop(a) then 1 else 0) + TodoRefs(todo[1..], a)
  }

  function BatchRefs(batch: seq<Forget>): multiset<Addr> {
    if batch == [] then multiset{}
    else Copies(batch[0].node, batch[0].nlookup) + BatchRefs(batch[1..])
  }

  function One(b: bool): nat {
    if b then 1 else 0
  }

  /** How many references to the object at `a` a request accounts for: its shared
      pointers, the grants it has taken and not settled, and the references a forget
      has yet to return. */
  function Refs(task: Task, a: Addr): nat {
    match task
    case Resolve(_, ctx) => CtxRefs(ctx, a)
    case Opened(_, ctx, _) => CtxRefs(ctx, a)
    case Resolved(_, ctx, _) => CtxRefs(ctx, a)
    case Held(_, ctx, node) => One(node == a) + CtxRefs(ctx, a)
    case Probing(_, ctx, node, _) => One(node == a) + CtxRefs(ctx, a)
    case Described(_, ctx, node) => One(node == a) + CtxRefs(ctx, a)
    case Dropping(_, ctx, node, _) => One(node == a) + CtxRefs(ctx, a)
    case Granted(_, node) => 2 * One(node == a)
    case Send(_, got) => 2 * multiset(got)[a]
    case Unwind(todo) => TodoRefs(todo, a)
    case Forgetting(batch) => BatchRefs(batch)[a]
    case _ => 0
  }

  function CtxFds(ctx: Context, fd: Fd): nat {
    One(ctx == Entry(Some(fd)))
  }

  function TodoFds(todo: seq<Cleanup>, fd: Fd): nat {
    if todo == [] then 0 else (if todo[0] == Close(fd) then 1 else 0) + TodoFds(todo[1..], fd)
  }

  /** How often a request must close the descriptor or hand it over. */
  function Fds(task: Task, fd: Fd): nat {
    match task
    case Resolve(_, ctx) => CtxFds(ctx, fd)
    case Opened(_, ctx, f) => CtxFds(ctx, fd) + One(f == fd)
    case Resolved(_, ctx, inode) => CtxFds(ctx, fd) + One(inode.fd == fd)
    case Held(_, ctx, _) => CtxFds(ctx, fd)
    case Probing(_, ctx, _, f) => CtxFds(ctx, fd) + One(f == fd)
    case Described(_, ctx, _) => CtxFds(ctx, fd)
    case Dropping(_, ctx, _, _) => CtxFds(ctx, fd)
    case Granted(file, _) => One(file == Some(fd))
    case Unwind(todo) => TodoFds(todo, fd)
    case Opening(_, f) => One(f == fd)
    case Releasing(_, f) => One(f == fd)
    case Using(_, _, temp) => One(temp == Some(fd))
    case _ => 0
  }

  /** The node ids an unanswered request names and its handler may still dereference.
      A request that has been answered names none. */
  function Names(task: Task): set<Addr> {
    match task
    case CreateFile(parent) => {parent}
    case Resolve(parent, _) => {parent}
    case Opened(parent, _, _) => {parent}
    case Resolved(parent, _, _) => {parent}
    case Held(parent, _, _) => {parent}
    case Probing(parent, _, _, _) => {parent}
    case Described(parent, _, _) => {parent}
    case Dropping(parent, _, _, _) => {parent}
    case OpenFile(node) => {node}
    case Opening(node, _) => {node}
    case Releasing(node, _) => {node}
    case Writing(node) => {node}
    case Using(nodes, _, _) => nodes
    case _ => {}
  }

  // ---- Steps of a request

  /** `GetInode` followed by a read of the object. */
  function Deref(s: State, id: Addr): Option<Inode> {
    if id == ROOT_ID then Some(s.root) else if id in s.heap then Some(s.heap[id]) else None
  }

  /** The inode has been destroyed: the address is free, or another inode lives there. */
  predicate Gone(s: State, node: Addr, inode: Inode) {
    Deref(s, node) != Some(inode)
  }

  function Goto(s: State, t: nat, task: Task): State
    requires t < |s.tasks|
  {
    s.(tasks := s.tasks[t := task])
  }

  /** A request closes a descriptor: anything but its own is a fault, since the
      number may already stand for another file. */
  function CloseFd(s: State, fd: Fd, holder: Holder): Option<State> {
    if fd in s.open && s.open[fd] == holder then Some(s.(open := s.open - {fd})) else None
  }

  function DoOpen(s: State, t: nat, fd: Fd, task: Task): Outcome
    requires t < |s.tasks|
  {
    if fd in s.open then Disabled
    else Next(Goto(s.(open := s.open[fd := ByTask(t)]), t, task))
  }

  function DoClose(s: State, t: nat, fd: Fd, task: Task): Outcome
    requires t < |s.tasks|
  {
    match CloseFd(s, fd, ByTask(t))
    case None => Fault(BadClose)
    case Some(s') => Next(Goto(s', t, task))
  }

  /** `InodeCache::Insert`: a new entry takes the inode over, at an address no live
      object occupies; on a hit the duplicate inode and its descriptor go away. */
  function DoInsert(s: State, t: nat, parent: Addr, ctx: Context, inode: Inode, node: Addr): Outcome
    requires t < |s.tasks|
  {
    var cache := RefCounts.Insert(s.cache, inode.key, node);
    if inode.key in s.cache then
      if s.cache[inode.key].refcnt + 1 == TWO_64 then Fault(Overflow)
      else DoClose(s.(cache := cache), t, inode.fd, Held(parent, ctx, s.cache[inode.key].node))
    else if node in s.heap || node == ROOT_ID then Disabled
    else if inode.fd !in s.open || s.open[inode.fd] != ByTask(t) then Fault(BadClose)
    else
      Next(Goto(s.(cache := cache, heap := s.heap[node := inode.(born := s.clock)],
                   open := s.open[inode.fd := ByNode(node)], clock := s.clock + 1),
                t, Held(parent, ctx, node)))
  }

  function DoRef(s: State, t: nat, node: Addr, task: Task): Outcome
    requires t < |s.tasks|
  {
    match Deref(s, node)
    case None => Fault(Dangling)
    case Some(inode) =>
      if inode.key in s.cache && s.cache[inode.key].refcnt + 1 == TWO_64 then Fault(Overflow)
      else
        match RefCounts.Ref(s.cache, inode.key, 1)
        case NoEntry => Fault(MissingEntry)
        case Underflow => Fault(CheckFailure)
        case Updated(cache) => Next(Goto(s.(cache := cache), t, task))
  }

  /** `InodeCache::Unref`; the last reference destroys the entry's inode, which
      closes its descriptor. */
  function DoUnref(s: State, t: nat, node: Addr, n: uint64, task: Task): Outcome
    requires t < |s.tasks|
  {
    match Deref(s, node)
    case None => Fault(Dangling)
    case Some(inode) =>
      match RefCounts.Unref(s.cache, inode.key, n)
      case NoEntry => Fault(MissingEntry)
      case Underflow => Fault(CheckFailure)
      case Updated(cache) =>
        if inode.key in cache then Next(Goto(s.(cache := cache), t, task))
        else
          var erased := s.cache[inode.key].node;
          if erased !in s.heap then Fault(Dangling)
          else
            match CloseFd(s.(cache := cache), s.heap[erased].fd, ByNode(erased))
            case None => Fault(BadClose)
            case Some(s') => Next(Goto(s'.(heap := s'.heap - {erased}), t, task))
  }

  /** The kernel takes an entry, create or listing reply: it now counts these lookups,
      and may use the file handle that came along. */
  function DoGrant(s: State, t: nat, nodes: multiset<Addr>, task: Task): State
    requires t < |s.tasks|
  {
    Goto(s.(lookups := s.lookups + nodes), t, task)
  }

  function DoHandOver(s: State, file: Option<Fd>, node: Addr): State {
    match file
    case None => s
    case Some(fd) => s.(open := s.open[fd := ByHandle], handles := s.handles[fd := node])
  }

  function ResolveStep(s: State, t: nat, parent: Addr, ctx: Context, choice: Choice): Outcome
    requires t < |s.tasks|
  {
    match choice
    case End => // readdir returns no entry
      if ctx.Listing? then Next(Goto(s, t, Send(ctx.plus, ctx.got))) else Disabled
    case Fail => // readdir or openat fails
      if Deref(s, parent).None? then Fault(Dangling) else Next(Goto(s, t, Unwind(ExitOf(ctx))))
    case Descriptor(fd) =>
      if Deref(s, parent).None? then Fault(Dangling) else DoOpen(s, t, fd, Opened(parent, ctx, fd))
    case _ => Disabled
  }

  /** The device check of `ReplyWithLookup` and `ReplyWithCreate`; a listing makes none. */
  predicate MayDescribe(ctx: Context, parent: Inode, child: Inode) {
    ctx.Entry? ==> parent.key.dev == child.key.dev
  }

  /** After the device check come the stat call and, unless the listing is plain, the
      generation, for which the file is opened when it is not known yet. */
  function HeldStep(s: State, t: nat, parent: Addr, ctx: Context, node: Addr, choice: Choice): Outcome
    requires t < |s.tasks|
  {
    var p, i := Deref(s, parent), Deref(s, node);
    if p.None? || i.None? then Fault(Dangling)
    else if choice.Fail? || (choice.Proceed? && !MayDescribe(ctx, p.value, i.value)) then
      Next(Goto(s, t, Unwind([Drop(node)] + ExitOf(ctx))))
    else if choice.Proceed? then Next(Goto(s, t, Described(parent, ctx, node)))
    else if choice.Descriptor? && MayDescribe(ctx, p.value, i.value) && (ctx.Entry? || ctx.plus) then
      DoOpen(s, t, choice.fd, Probing(parent, ctx, node, choice.fd))
    else Disabled
  }

  function ProbingStep(s: State, t: nat, parent: Addr, ctx: Context, node: Addr, fd: Fd, choice: Choice): Outcome
    requires t < |s.tasks|
  {
    match choice
    case Proceed => DoClose(s, t, fd, Described(parent, ctx, node))
    case Fail => Next(Goto(s, t, Unwind([Close(fd), Drop(node)] + ExitOf(ctx))))
    case _ => Disabled
  }

  /** An entry reply takes the kernel's reference first.  A listing asks the buffer:
      `Proceed` when the entry fits, `End` when it does not. */
  function DescribedStep(s: State, t: nat, parent: Addr, ctx: Context, node: Addr, choice: Choice): Outcome
    requires t < |s.tasks|
  {
    match (ctx, choice)
    case (Entry(file), Proceed) => DoRef(s, t, node, Granted(file, node))
    case (Listing(plus, got), Proceed) =>
      if plus then DoRef(s, t, node, Resolve(parent, Listing(plus, got + [node])))
      else Next(Goto(s, t, Dropping(parent, ctx, node, false)))
    case (Listing(plus, got), End) => Next(Goto(s, t, Dropping(parent, ctx, node, true)))
    case _ => Disabled
  }

  function DroppingStep(s: State, t: nat, parent: Addr, ctx: Context, node: Addr, last: bool): Outcome
    requires t < |s.tasks|
  {
    if ctx.Entry? then Disabled
    else DoUnref(s, t, node, 1, if last then Send(ctx.plus, ctx.got) else Resolve(parent, ctx))
  }

  /** The reply of a lookup or create, accepted or refused. */
  function GrantedStep(s: State, t: nat, file: Option<Fd>, node: Addr, choice: Choice): Outcome
    requires t < |s.tasks|
  {
    match choice
    case Proceed => Next(DoHandOver(DoGrant(s, t, multiset{node}, Unwind([Drop(node)])), file, node))
    case Fail => Next(Goto(s, t, Unwind([Drop(node), Drop(node)] + CloseFile(file))))
    case _ => Disabled
  }

  /** The reply of a listing.  Which of its entries the kernel counts is up to the kernel. */
  function SendStep(s: State, t: nat, got: seq<Addr>, choice: Choice): Outcome
    requires t < |s.tasks|
  {
    match choice
    case Accept(counted) =>
      if counted <= multiset(got) then
        Next(DoGrant(s.(uncounted := s.uncounted + (multiset(got) - counted)), t, counted, Unwind(Drops(got))))
      else Disabled
    case Fail => Next(Goto(s, t, Unwind(Drops(got) + Drops(got))))
    case _ => Disabled
  }

  function UnwindStep(s: State, t: nat, todo: seq<Cleanup>): Outcome
    requires t < |s.tasks|
  {
    if todo == [] then Disabled
    else
      match todo[0]
      case Close(fd) => DoClose(s, t, fd, Unwind(todo[1..]))
      case Drop(node) => DoUnref(s, t, node, 1, Unwind(todo[1..]))
  }

  /** `Open` and `Create` open a file of their own first; `Create` then goes on like
      a lookup. */
  function OpenStep(s: State, t: nat, node: Addr, creates: bool, choice: Choice): Outcome
    requires t < |s.tasks|
  {
    if Deref(s, node).None? then Fault(Dangling)
    else
      match choice
      case Fail => Next(Goto(s, t, Unwind([])))
      case Descriptor(fd) => DoOpen(s, t, fd, if creates then Resolve(node, Entry(Some(fd))) else Opening(node, fd))
      case _ => Disabled
  }

  function OpeningStep(s: State, t: nat, node: Addr, fd: Fd, choice: Choice): Outcome
    requires t < |s.tasks|
  {
    match choice
    case Proceed => Next(DoHandOver(Goto(s, t, Unwind([])), Some(fd), node))
    case Fail => Next(Goto(s, t, Unwind([Close(fd)])))
    case _ => Disabled
  }

  /** The handlers that move no references: they read their inodes any number of times
      and may have a descriptor of their own open.  Those that make a directory entry
      go on like a lookup; for the others `End` is the reply. */
  function UsingStep(s: State, t: nat, nodes: set<Addr>, next: Option<Addr>, temp: Option<Fd>, choice: Choice): Outcome
    requires t < |s.tasks|
  {
    if exists id | id in nodes :: Deref(s, id).None? then Fault(Dangling)
    else
      match choice
      case Proceed => Next(s)
      case Fail => Next(Goto(s, t, Unwind(CloseFile(temp))))
      case Descriptor(fd) => if temp.None? then DoOpen(s, t, fd, Using(nodes, next, Some(fd))) else Disabled
      case End =>
        if next.Some? && temp.None? then Next(Goto(s, t, Resolve(next.value, Entry(None))))
        else Next(Goto(s, t, Unwind(CloseFile(temp))))
      case _ => Disabled
  }

  /** `WriteBuf` up to its reply, which may be accepted or refused. */
  function WritingStep(s: State, t: nat, node: Addr, choice: Choice): Outcome
    requires t < |s.tasks|
  {
    match Deref(s, node)
    case None => Fault(Dangling)
    case Some(inode) =>
      match choice
      case Proceed => Next(Goto(s, t, Answered(node, inode)))
      case Fail => Next(Goto(s, t, Unwind([])))
      case _ => Disabled
  }

  /** `WriteBuf` after its reply: it tells the inode's poll handle about the write. */
  function AnsweredStep(s: State, t: nat, node: Addr, inode: Inode, choice: Choice): Outcome
    requires t < |s.tasks|
  {
    if !choice.Proceed? then Disabled
    else if Gone(s, node, inode) then Fault(Dangling)
    else Next(Goto(s, t, Unwind([])))
  }

  function RunTask(s: State, t: nat, choice: Choice): Outcome {
    if t >= |s.tasks| then Disabled
    else
      match s.tasks[t]
      case CreateFile(parent) => OpenStep(s, t, parent, true, choice)
      case Resolve(parent, ctx) => ResolveStep(s, t, parent, ctx, choice)
      case Opened(parent, ctx, fd) =>
        if choice.Fail? then Next(Goto(s, t, Unwind([Close(fd)] + ExitOf(ctx))))
        else if choice.Attributes? then Next(Goto(s, t, Resolved(parent, ctx, Inode(choice.key, fd, 0))))
        else Disabled
      case Resolved(parent, ctx, inode) =>
        if choice.Address? then DoInsert(s, t, parent, ctx, inode, choice.node) else Disabled
      case Held(parent, ctx, node) => HeldStep(s, t, parent, ctx, node, choice)
      case Probing(parent, ctx, node, fd) => ProbingStep(s, t, parent, ctx, node, fd, choice)
      case Described(parent, ctx, node) => DescribedStep(s, t, parent, ctx, node, choice)
      case Dropping(parent, ctx, node, last) => DroppingStep(s, t, parent, ctx, node, last)
      case Granted(file, node) => GrantedStep(s, t, file, node, choice)
      case Send(plus, got) => SendStep(s, t, got, choice)
      case Unwind(todo) => UnwindStep(s, t, todo)
      case Forgetting(batch) =>
        if batch == [] then Disabled
        else DoUnref(s, t, batch[0].node, batch[0].nlookup, Forgetting(batch[1..]))
      case OpenFile(node) => OpenStep(s, t, node, false, choice)
      case Opening(node, fd) => OpeningStep(s, t, node, fd, choice)
      case Releasing(node, fd) =>
        if Deref(s, node).None? then Fault(Dangling) else Next(Goto(s, t, Unwind([Close(fd)])))
      case Writing(node) => WritingStep(s, t, node, choice)
      case Answered(node, inode) => AnsweredStep(s, t, node, inode, choice)
      case Using(nodes, next, temp) => UsingStep(s, t, nodes, next, temp, choice)
  }

  // ---- Steps of the kernel

  /** The ids the kernel may name: the root's, and those it holds lookups on. */
  predicate Known(s: State, id: Addr) {
    id == ROOT_ID || s.lookups[id] > 0
  }

  /** An id stays pinned while an unanswered request names it or a file is open on it. */
  predicate Pinned(s: State, id: Addr) {
    || (exists t | 0 <= t < |s.tasks| :: id in Names(s.tasks[t]))
    || (exists fd | fd in s.handles :: s.handles[fd] == id)
  }

  function Arrive(s: State, task: Task): State {
    s.(tasks := s.tasks + [task])
  }

  /** What the kernel may forget: positive counts, never the root, no more than it
      holds, and never the last lookup of a pinned id. */
  predicate MayForget(s: State, batch: seq<Forget>) {
    && (forall f | f in batch :: f.nlookup > 0 && f.node != ROOT_ID)
    && BatchRefs(batch) <= s.lookups
    && (forall f | f in batch && Pinned(s, f.node) :: BatchRefs(batch)[f.node] < s.lookups[f.node])
  }

  function KernelStep(s: State, event: Event): Outcome {
    match event
    case Lookup(parent) => if Known(s, parent) then Next(Arrive(s, Resolve(parent, Entry(None)))) else Disabled
    case Create(parent) => if Known(s, parent) then Next(Arrive(s, CreateFile(parent))) else Disabled
    case ReadDir(dir, plus) => if Known(s, dir) then Next(Arrive(s, Resolve(dir, Listing(plus, [])))) else Disabled
    case Open(node) => if Known(s, node) then Next(Arrive(s, OpenFile(node))) else Disabled
    case Use(nodes, next) =>
      if (forall id | id in nodes :: Known(s, id)) && (next.Some? ==> next.value in nodes)
      then Next(Arrive(s, Using(nodes, next, None)))
      else Disabled
    case Write(fd) => if fd in s.handles then Next(Arrive(s, Writing(s.handles[fd]))) else Disabled
    case Release(fd) =>
      if fd !in s.handles then Disabled
      else
        Next(Arrive(s.(handles := s.handles - {fd}, open := s.open[fd := ByTask(|s.tasks|)]),
                    Releasing(s.handles[fd], fd)))
    case ForgetMulti(batch) =>
      if MayForget(s, batch) then Next(Arrive(s.(lookups := s.lookups - BatchRefs(batch)), Forgetting(batch)))
      else Disabled
  }

  /** The kernel takes the reply. */
  predicate TakenReply(task: Task, choice: Choice) {
    if task.Send? then choice.Accept? else choice.Proceed? && (task.Granted? || task.Opening?)
  }

  /** A `WriteBuf` that has already replied reads its inode when that is gone. */
  predicate ReadsStale(s: State, step: Step) {
    && step.Run? && step.choice.Proceed? && step.task < |s.tasks| && s.tasks[step.task].Answered?
    && Gone(s, s.tasks[step.task].node, s.tasks[step.task].inode)
  }

  predicate Finished(task: Task) {
    task == Unwind([]) || task == Forgetting([])
  }

  predicate AllFinished(s: State) {
    forall t | 0 <= t < |s.tasks| :: Finished(s.tasks[t])
  }

  // ---- Runs

  function Exec(s: State, step: Step): Outcome {
    match step
    case Kernel(event) => KernelStep(s, event)
    case Run(t, choice) => RunTask(s, t, choice)
  }

  function ExecAll(s: State, steps: seq<Step>): Outcome
    decreases |steps|
  {
    if steps == [] then Next(s)
    else
      match Exec(s, steps[0])
      case Next(s') => ExecAll(s', steps[1..])
      case other => other
  }

  function Init(root: Inode): State {
    State(root, map[], map[], map[root.fd := ByRoot], [], multiset{}, multiset{}, map[], 0)
  }
}
