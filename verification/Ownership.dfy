/** Move-by-swap ownership, on values: a program over a pool of owners, each of which
    is empty or holds one resource.  `FileDescriptor`, `FuseRequest` and
    `FusePollHandle` all move by swapping with the other side. */
module Ownership {
  import opened Options

  datatype Op<R> =
    | Construct(slot: nat, content: Option<R>)
    | Adopt(slot: nat, resource: R)           // constructs from what was released before
    | MoveConstruct(slot: nat, from: nat)
    | MoveAssign(slot: nat, from: nat)
    | Release(slot: nat)
    | Destroy(slot: nat)

  /** A variable of the program: no object there, or an owner and what it holds. */
  datatype Slot<R> =
    | Absent
    | Owner(content: Option<R>)

  datatype Pool<R> = Pool(slots: seq<Slot<R>>, acquired: multiset<R>, disposed: multiset<R>, released: multiset<R>)

  function Content<R>(o: Option<R>): multiset<R> {
    if o.Some? then multiset{o.value} else multiset{}
  }

  /** The language's rules: constructors make new objects, everything else works on
      existing ones.  Only what was released can be adopted. */
  predicate Allowed<R>(p: Pool<R>, op: Op<R>) {
    && op.slot < |p.slots|
    && ((op.Construct? || op.Adopt? || op.MoveConstruct?) <==> p.slots[op.slot].Absent?)
    && (op.Adopt? ==> op.resource in p.released)
    && (op.MoveConstruct? || op.MoveAssign? ==> op.from < |p.slots| && p.slots[op.from].Owner?)
  }

  function Step<R>(p: Pool<R>, op: Op<R>): Pool<R>
    requires Allowed(p, op)
  {
    match op
    case Construct(i, r) => p.(slots := p.slots[i := Owner(r)], acquired := p.acquired + Content(r))
    case Adopt(i, r) => p.(slots := p.slots[i := Owner(Some(r))], released := p.released - multiset{r})
    case MoveConstruct(i, j) => p.(slots := p.slots[i := p.slots[j]][j := Owner(None)])
    case MoveAssign(i, j) => p.(slots := p.slots[i := p.slots[j]][j := p.slots[i]])
    case Release(i) => p.(slots := p.slots[i := Owner(None)], released := p.released + Content(p.slots[i].content))
    case Destroy(i) => p.(slots := p.slots[i := Absent], disposed := p.disposed + Content(p.slots[i].content))
  }

  predicate AllAllowed<R>(p: Pool<R>, program: seq<Op<R>>)
    decreases |program|
  {
    program == [] || (Allowed(p, program[0]) && AllAllowed(Step(p, program[0]), program[1..]))
  }

  function RunAll<R>(p: Pool<R>, program: seq<Op<R>>): Pool<R>
    requires AllAllowed(p, program)
    decreases |program|
  {
    if program == [] then p else RunAll(Step(p, program[0]), program[1..])
  }

  function Start<R>(n: nat): Pool<R> {
    Pool(seq(n, _ => Absent), multiset{}, multiset{}, multiset{})
  }

  function Holding<R(==)>(s: Slot<R>, r: R): nat {
    if s == Owner(Some(r)) then 1 else 0
  }

  /** How many owners hold `r`. */
  function HeldBy<R(==)>(slots: seq<Slot<R>>, r: R): nat {
    if slots == [] then 0 else HeldBy(slots[..|slots| - 1], r) + Holding(slots[|slots| - 1], r)
  }

  lemma {:induction false} HeldByReplace<R>(slots: seq<Slot<R>>, i: nat, s: Slot<R>, r: R)
    requires i < |slots|
    ensures HeldBy(slots[i := s], r) + Holding(slots[i], r) == HeldBy(slots, r) + Holding(s, r)
  {
    var last := |slots| - 1;
    if i == last {
      assert slots[i := s][..last] == slots[..last];
    } else {
      assert slots[i := s][..last] == slots[..last][i := s];
      HeldByReplace(slots[..last], i, s, r);
    }
  }

  lemma {:induction false} HeldByFinds<R>(slots: seq<Slot<R>>, i: nat, r: R)
    requires i < |slots| && slots[i] == Owner(Some(r))
    ensures HeldBy(slots, r) >= 1
    ensures forall j | i < j < |slots| && slots[j] == Owner(Some(r)) :: HeldBy(slots, r) >= 2
  {
    var last := |slots| - 1;
    if i < last {
      HeldByFinds(slots[..last], i, r);
      forall j | i < j < |slots| && slots[j] == Owner(Some(r)) ensures HeldBy(slots, r) >= 2 {
        if j < last { assert slots[..last][j] == slots[j]; }
      }
    }
  }

  lemma {:induction false} AbsentHoldNothing<R>(slots: seq<Slot<R>>, r: R)
    requires forall i | 0 <= i < |slots| :: slots[i] != Owner(Some(r))
    ensures HeldBy(slots, r) == 0
  {
    if slots != [] {
      AbsentHoldNothing(slots[..|slots| - 1], r);
    }
  }

  /** Nothing is lost and nothing is doubled: a resource is held by an owner, disposed of,
      or released to the caller - as often as it was acquired. */
  ghost predicate Accounted<R>(p: Pool<R>, r: R) {
    p.acquired[r] == HeldBy(p.slots, r) + p.disposed[r] + p.released[r]
  }

  ghost predicate Conserved<R(!new)>(p: Pool<R>) {
    forall r: R :: Accounted(p, r)
  }

  lemma ConstructConserves<R>(p: Pool<R>, i: nat, c: Option<R>, r: R)
    requires Allowed(p, Construct(i, c)) && Accounted(p, r)
    ensures Accounted(Step(p, Construct(i, c)), r)
  {
    HeldByReplace(p.slots, i, Owner(c), r);
  }

  lemma AdoptConserves<R>(p: Pool<R>, i: nat, c: R, r: R)
    requires Allowed(p, Adopt(i, c)) && Accounted(p, r)
    ensures Accounted(Step(p, Adopt(i, c)), r)
  {
    HeldByReplace(p.slots, i, Owner(Some(c)), r);
  }

  lemma MoveConstructConserves<R>(p: Pool<R>, i: nat, j: nat, r: R)
    requires Allowed(p, MoveConstruct(i, j)) && Accounted(p, r)
    ensures Accounted(Step(p, MoveConstruct(i, j)), r)
  {
    HeldByReplace(p.slots, i, p.slots[j], r);
    HeldByReplace(p.slots[i := p.slots[j]], j, Owner(None), r);
  }

  lemma MoveAssignConserves<R>(p: Pool<R>, i: nat, j: nat, r: R)
    requires Allowed(p, MoveAssign(i, j)) && Accounted(p, r)
    ensures Accounted(Step(p, MoveAssign(i, j)), r)
  {
    HeldByReplace(p.slots, i, p.slots[j], r);
    HeldByReplace(p.slots[i := p.slots[j]], j, p.slots[i], r);
  }

  lemma ReleaseConserves<R>(p: Pool<R>, i: nat, r: R)
    requires Allowed(p, Release(i)) && Accounted(p, r)
    ensures Accounted(Step(p, Release(i)), r)
  {
    HeldByReplace(p.slots, i, Owner(None), r);
  }

  lemma DestroyConserves<R>(p: Pool<R>, i: nat, r: R)
    requires Allowed(p, Destroy(i)) && Accounted(p, r)
    ensures Accounted(Step(p, Destroy(i)), r)
  {
    HeldByReplace(p.slots, i, Absent, r);
  }

  lemma StepConserves<R>(p: Pool<R>, op: Op<R>, r: R)
    requires Allowed(p, op) && Accounted(p, r)
    ensures Accounted(Step(p, op), r)
  {
    match op {
      case Construct(i, c) => ConstructConserves(p, i, c, r);
      case Adopt(i, c) => AdoptConserves(p, i, c, r);
      case MoveConstruct(i, j) => MoveConstructConserves(p, i, j, r);
      case MoveAssign(i, j) => MoveAssignConserves(p, i, j, r);
      case Release(i) => ReleaseConserves(p, i, r);
      case Destroy(i) => DestroyConserves(p, i, r);
    }
  }

  lemma {:induction false} ProgramConserves<R(!new)>(p: Pool<R>, program: seq<Op<R>>)
    requires AllAllowed(p, program) && Conserved(p)
    ensures Conserved(RunAll(p, program))
    decreases |program|
  {
    if program != [] {
      var q := Step(p, program[0]);
      forall r: R ensures Accounted(q, r) {
        StepConserves(p, program[0], r);
      }
      ProgramConserves(q, program[1..]);
    }
  }

  lemma StartConserved<R(!new)>(n: nat)
    ensures Conserved(Start<R>(n))
  {
    forall r: R ensures Accounted(Start<R>(n), r) {
      AbsentHoldNothing(Start<R>(n).slots, r);
    }
  }

  /** Ownership is linear over every program: a resource acquired once is never held
      by two owners, and is disposed of at most once - and never while it is held or
      while it is released.  It may be released and adopted any number of times. */
  lemma OwnershipIsLinear<R(!new)>(n: nat, program: seq<Op<R>>, r: R)
    requires AllAllowed(Start<R>(n), program) && RunAll(Start<R>(n), program).acquired[r] == 1
    ensures var p := RunAll(Start<R>(n), program);
      && HeldBy(p.slots, r) + p.disposed[r] + p.released[r] == 1
      && (forall i, j | 0 <= i < j < |p.slots| :: !(p.slots[i] == p.slots[j] == Owner(Some(r))))
  {
    StartConserved<R>(n);
    ProgramConserves(Start<R>(n), program);
    var p := RunAll(Start<R>(n), program);
    assert Accounted(p, r);
    forall i, j | 0 <= i < j < |p.slots| ensures !(p.slots[i] == p.slots[j] == Owner(Some(r))) {
      if p.slots[i] == Owner(Some(r)) { HeldByFinds(p.slots, i, r); }
    }
  }

  /** When every owner is gone and nothing was released, everything acquired has been
      disposed of, each as often as it was acquired. */
  lemma AllDisposedAtEnd<R(!new)>(n: nat, program: seq<Op<R>>)
    requires AllAllowed(Start<R>(n), program)
    requires forall i | 0 <= i < |RunAll(Start<R>(n), program).slots| :: RunAll(Start<R>(n), program).slots[i].Absent?
    requires RunAll(Start<R>(n), program).released == multiset{}
    ensures RunAll(Start<R>(n), program).disposed == RunAll(Start<R>(n), program).acquired
  {
    StartConserved<R>(n);
    ProgramConserves(Start<R>(n), program);
    var p := RunAll(Start<R>(n), program);
    forall r: R ensures p.disposed[r] == p.acquired[r] {
      assert Accounted(p, r);
      AbsentHoldNothing(p.slots, r);
    }
  }

  /** Whoever hands out resources never hands out one that is still open; one that was
      disposed of may come back, as descriptor numbers do. */
  predicate HandedOutClosed<R>(p: Pool<R>, program: seq<Op<R>>)
    requires AllAllowed(p, program)
    decreases |program|
  {
    program == [] ||
    ((program[0].Construct? && program[0].content.Some? ==>
        p.acquired[program[0].content.value] == p.disposed[program[0].content.value])
     && HandedOutClosed(Step(p, program[0]), program[1..]))
  }

  /** Even with reuse, an open resource has one owner, or the caller it was released to;
      what was disposed of was disposed of once for each time it was acquired. */
  lemma {:induction false} OneOwnerDespiteReuse<R(!new)>(p: Pool<R>, program: seq<Op<R>>, r: R)
    requires AllAllowed(p, program) && HandedOutClosed(p, program) && Conserved(p)
    requires HeldBy(p.slots, r) + p.released[r] <= 1
    ensures HeldBy(RunAll(p, program).slots, r) + RunAll(p, program).released[r] <= 1
    ensures RunAll(p, program).disposed[r] <= RunAll(p, program).acquired[r] <= RunAll(p, program).disposed[r] + 1
    decreases |program|
  {
    assert Accounted(p, r);
    if program != [] {
      var q := Step(p, program[0]);
      ProgramConserves(p, [program[0]]);
      assert RunAll(p, [program[0]]) == q;
      assert Accounted(q, r);
      OneOwnerDespiteReuse(q, program[1..], r);
    }
  }

  lemma Prepend<R>(p: Pool<R>, op: Op<R>, rest: seq<Op<R>>)
    requires Allowed(p, op) && AllAllowed(Step(p, op), rest) && HandedOutClosed(Step(p, op), rest)
    requires op.Construct? && op.content.Some? ==> p.acquired[op.content.value] == p.disposed[op.content.value]
    ensures AllAllowed(p, [op] + rest) && HandedOutClosed(p, [op] + rest)
    ensures RunAll(p, [op] + rest) == RunAll(Step(p, op), rest)
  {
    assert ([op] + rest)[1..] == rest;
  }

  /** A file's life: opened, released to the kernel as a number, adopted again when the
      kernel releases it, and closed - once. */
  lemma FileLifeClosesOnce<R>(r: R)
    ensures var life: seq<Op<R>> := [Construct(0, Some(r)), Release(0), Destroy(0), Adopt(0, r), Destroy(0)];
      && AllAllowed(Start<R>(1), life) && HandedOutClosed(Start<R>(1), life)
      && RunAll(Start<R>(1), life) == Pool([Absent], multiset{r}, multiset{r}, multiset{})
  {
    var p1 := Pool([Owner(Some(r))], multiset{r}, multiset{}, multiset{});
    var p2 := Pool([Owner(None)], multiset{r}, multiset{}, multiset{r});
    var p3 := Pool([Absent], multiset{r}, multiset{}, multiset{r});
    assert Step(Start<R>(1), Construct(0, Some(r))) == p1;
    assert Step(p1, Release(0)) == p2;
    assert Step(p2, Destroy(0)) == p3;
    assert Step(p3, Adopt(0, r)) == p1;
    assert Step(p1, Destroy(0)) == Pool([Absent], multiset{r}, multiset{r}, multiset{});
    Prepend(p1, Destroy(0), []);
    Prepend(p3, Adopt(0, r), [Destroy(0)]);
    Prepend(p2, Destroy(0), [Adopt(0, r), Destroy(0)]);
    Prepend(p1, Release(0), [Destroy(0), Adopt(0, r), Destroy(0)]);
    Prepend(Start<R>(1), Construct(0, Some(r)), [Release(0), Destroy(0), Adopt(0, r), Destroy(0)]);
    assert [Adopt(0, r)] + [Destroy(0)] == [Adopt(0, r), Destroy(0)];
    assert [Destroy(0)] + [Adopt(0, r), Destroy(0)] == [Destroy(0), Adopt(0, r), Destroy(0)];
    assert [Release(0)] + [Destroy(0), Adopt(0, r), Destroy(0)] == [Release(0), Destroy(0), Adopt(0, r), Destroy(0)];
    assert [Construct(0, Some(r))] + [Release(0), Destroy(0), Adopt(0, r), Destroy(0)]
      == [Construct(0, Some(r)), Release(0), Destroy(0), Adopt(0, r), Destroy(0)];
  }
}
