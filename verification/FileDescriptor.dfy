/** `FileDescriptor` and `syscalls::close`, and programs over them. */
module FileDescriptors {
  import opened Options
  import opened Ownership

  /** The descriptors opened for inodes, and the calls to `::close`, in order. */
  class Os {
    var opens: seq<int>
    var closes: seq<int>

    constructor ()
      ensures opens == closes == []
    {
      opens, closes := [], [];
    }
  }

  class FileDescriptor {
    var fd: int

    constructor ()
      ensures fd == -1
    {
      fd := -1;
    }

    constructor Own(fd: int)
      ensures this.fd == fd
    {
      this.fd := fd;
    }

    constructor Move(o: FileDescriptor)
      modifies o
      ensures fd == old(o.fd) && o.fd == -1
    {
      fd := -1;
      new;
      MoveAssign(o);
    }

    /** Assignment swaps; with itself it changes nothing. */
    method MoveAssign(o: FileDescriptor)
      modifies this, o
      ensures fd == old(o.fd) && o.fd == old(fd)
    {
      fd, o.fd := o.fd, fd;
    }

    method Release() returns (released: int)
      modifies this
      ensures released == old(fd) && fd == -1
    {
      released := fd;
      fd := -1;
    }

    /** The destructor hands what it holds to `Close`, by a temporary. */
    method Destroy(os: Os)
      modifies this, os`closes
      ensures fd == -1
      ensures os.closes == old(os.closes) + if old(fd) == -1 then [] else [old(fd)]
      decreases if fd == -1 then 0 else 2
    {
      if fd == -1 { return; }
      var argument := new FileDescriptor.Move(this);
      Close(argument, os);
    }
  }

  /** `syscalls::close` takes its argument by value: it closes the number once, and
      the argument's own destructor finds nothing left. */
  method Close(fd: FileDescriptor, os: Os)
    modifies fd, os`closes
    ensures fd.fd == -1
    ensures os.closes == old(os.closes) + [old(fd.fd)]
    decreases 1
  {
    var number := fd.Release();
    os.closes := os.closes + [number];
    fd.Destroy(os);
  }

  // ---- Programs over descriptors

  function Seen(o: FileDescriptor?): Slot<int>
    reads o
  {
    if o == null then Absent else Owner(if o.fd == -1 then None else Some(o.fd))
  }

  ghost predicate Shows(variables: seq<FileDescriptor?>, slots: seq<Slot<int>>)
    reads variables
  {
    && |variables| == |slots|
    && (forall i | 0 <= i < |slots| :: Seen(variables[i]) == slots[i])
    && (forall i, j | 0 <= i < j < |variables| && variables[i] != null :: variables[i] != variables[j])
  }

  /** No program constructs a descriptor from -1, which stands for none. */
  predicate RealNumber(op: Op<int>) {
    (op.Construct? ==> op.content != Some(-1)) && (op.Adopt? ==> op.resource != -1)
  }

  predicate RealNumbers(program: seq<Op<int>>) {
    forall i | 0 <= i < |program| :: RealNumber(program[i])
  }

  /** The released numbers an operation, or a program, takes back. */
  function Taken(op: Op<int>): multiset<int> {
    if op.Adopt? then multiset{op.resource} else multiset{}
  }

  function Adopted(program: seq<Op<int>>): multiset<int> {
    if program == [] then multiset{} else Taken(program[0]) + Adopted(program[1..])
  }

  /** A new object at a free variable. */
  lemma PlaceKeeps(variables: seq<FileDescriptor?>, slots: seq<Slot<int>>, i: nat, o: FileDescriptor)
    requires Shows(variables, slots) && i < |slots| && o !in variables
    ensures Shows(variables[i := o], slots[i := Seen(o)])
  {}

  method PlaceNew(variables: seq<FileDescriptor?>, ghost slots: seq<Slot<int>>, i: nat, content: Option<int>)
    returns (after: seq<FileDescriptor?>)
    requires Shows(variables, slots) && i < |slots| && content != Some(-1)
    ensures Shows(after, slots[i := Owner(content)])
    ensures fresh(after[i]) && after == variables[i := after[i]]
  {
    var o := new FileDescriptor.Own(if content.None? then -1 else content.value);
    PlaceKeeps(variables, slots, i, o);
    after := variables[i := o];
  }

  method PlaceMoved(variables: seq<FileDescriptor?>, ghost slots: seq<Slot<int>>, i: nat, j: nat)
    returns (after: seq<FileDescriptor?>)
    requires Shows(variables, slots) && i < |slots| && j < |slots| && slots[i].Absent? && slots[j].Owner?
    modifies variables[j]
    ensures Shows(after, slots[i := slots[j]][j := Owner(None)])
    ensures fresh(after[i]) && after == variables[i := after[i]]
  {
    assert Seen(variables[i]) == slots[i] && Seen(variables[j]) == slots[j];
    var o := new FileDescriptor.Move(variables[j]);
    assert Shows(variables, slots[j := Owner(None)]);
    PlaceKeeps(variables, slots[j := Owner(None)], i, o);
    assert slots[j := Owner(None)][i := slots[j]] == slots[i := slots[j]][j := Owner(None)];
    after := variables[i := o];
  }

  method Swap(variables: seq<FileDescriptor?>, ghost slots: seq<Slot<int>>, i: nat, j: nat)
    requires Shows(variables, slots) && i < |slots| && j < |slots| && slots[i].Owner? && slots[j].Owner?
    modifies variables[i], variables[j]
    ensures Shows(variables, slots[i := slots[j]][j := slots[i]])
  {
    assert Seen(variables[i]) == slots[i] && Seen(variables[j]) == slots[j];
    variables[i].MoveAssign(variables[j]);
  }

  method Empty(variables: seq<FileDescriptor?>, ghost slots: seq<Slot<int>>, i: nat) returns (released: seq<int>)
    requires Shows(variables, slots) && i < |slots| && slots[i].Owner?
    modifies variables[i]
    ensures Shows(variables, slots[i := Owner(None)])
    ensures multiset(released) == Content(slots[i].content)
  {
    assert Seen(variables[i]) == slots[i];
    var number := variables[i].Release();
    released := if number == -1 then [] else [number];
  }

  method Remove(variables: seq<FileDescriptor?>, ghost slots: seq<Slot<int>>, i: nat, os: Os)
    returns (after: seq<FileDescriptor?>)
    requires Shows(variables, slots) && i < |slots| && slots[i].Owner?
    modifies variables[i], os`closes
    ensures Shows(after, slots[i := Absent]) && after == variables[i := null]
    ensures multiset(os.closes) == multiset(old(os.closes)) + Content(slots[i].content)
  {
    assert Seen(variables[i]) == slots[i];
    variables[i].Destroy(os);
    after := variables[i := null];
  }

  /** The operations that make an object. */
  method Make(variables: seq<FileDescriptor?>, op: Op<int>, ghost p: Pool<int>) returns (after: seq<FileDescriptor?>)
    requires Shows(variables, p.slots) && Allowed(p, op) && RealNumber(op)
    requires op.Construct? || op.Adopt? || op.MoveConstruct?
    modifies variables
    ensures Shows(after, Step(p, op).slots) && |after| == |variables|
    ensures forall i | 0 <= i < |after| && after[i] != null :: after[i] == variables[i] || fresh(after[i])
    ensures Step(p, op).disposed == p.disposed && p.released == Step(p, op).released + Taken(op)
  {
    if op.Construct? {
      after := PlaceNew(variables, p.slots, op.slot, op.content);
    } else if op.Adopt? {
      after := PlaceNew(variables, p.slots, op.slot, Some(op.resource));
      assert p.released == p.released - multiset{op.resource} + multiset{op.resource};
    } else {
      assert Seen(variables[op.from]) == p.slots[op.from];
      after := PlaceMoved(variables, p.slots, op.slot, op.from);
    }
  }

  /** One operation on real objects does what the pool's step says. */
  method Execute(variables: seq<FileDescriptor?>, op: Op<int>, os: Os, ghost p: Pool<int>)
    returns (after: seq<FileDescriptor?>, released: seq<int>)
    requires Shows(variables, p.slots) && Allowed(p, op) && RealNumber(op)
    modifies variables, os`closes
    ensures Shows(after, Step(p, op).slots)
    ensures |after| == |variables|
    ensures forall i | 0 <= i < |after| && after[i] != null :: after[i] == variables[i] || fresh(after[i])
    ensures multiset(os.closes) + p.disposed == multiset(old(os.closes)) + Step(p, op).disposed
    ensures p.released + multiset(released) == Step(p, op).released + Taken(op)
  {
    after, released := variables, [];
    if op.Construct? || op.Adopt? || op.MoveConstruct? {
      after := Make(variables, op, p);
    } else {
      assert Seen(variables[op.slot]) == p.slots[op.slot];
      if op.MoveAssign? {
        assert Seen(variables[op.from]) == p.slots[op.from];
        Swap(variables, p.slots, op.slot, op.from);
      } else if op.Release? {
        released := Empty(variables, p.slots, op.slot);
      } else {
        after := Remove(variables, p.slots, op.slot, os);
      }
    }
  }

  lemma ClosesAdd(closes0: multiset<int>, closes1: multiset<int>, closes2: multiset<int>,
                  gone0: multiset<int>, gone1: multiset<int>, gone2: multiset<int>)
    requires closes1 + gone0 == closes0 + gone1 && closes2 + gone1 == closes1 + gone2
    ensures closes2 + gone0 == closes0 + gone2
  {
    forall r: int ensures (closes2 + gone0)[r] == (closes0 + gone2)[r] {
      assert (closes1 + gone0)[r] == (closes0 + gone1)[r] && (closes2 + gone1)[r] == (closes1 + gone2)[r];
    }
  }

  lemma ReleasesAdd(released0: multiset<int>, released1: multiset<int>, released2: multiset<int>,
                    out1: multiset<int>, out2: multiset<int>, taken1: multiset<int>, taken2: multiset<int>)
    requires released0 + out1 == released1 + taken1 && released1 + out2 == released2 + taken2
    ensures released0 + (out1 + out2) == released2 + (taken1 + taken2)
  {
    forall r: int ensures (released0 + (out1 + out2))[r] == (released2 + (taken1 + taken2))[r] {
      assert (released0 + out1)[r] == (released1 + taken1)[r] && (released1 + out2)[r] == (released2 + taken2)[r];
    }
  }

  /** A whole program on real objects does what the pool says: the closes and the
      released descriptors are the pool's. */
  method Run(variables: seq<FileDescriptor?>, program: seq<Op<int>>, os: Os, ghost p: Pool<int>)
    returns (after: seq<FileDescriptor?>, released: seq<int>)
    requires Shows(variables, p.slots) && AllAllowed(p, program) && RealNumbers(program)
    modifies variables, os`closes
    ensures Shows(after, RunAll(p, program).slots)
    ensures |after| == |variables|
    ensures multiset(os.closes) + p.disposed == multiset(old(os.closes)) + RunAll(p, program).disposed
    ensures p.released + multiset(released) == RunAll(p, program).released + Adopted(program)
    decreases |program|
  {
    after, released := variables, [];
    if program != [] {
      assert RealNumber(program[0]);
      var first, rest;
      ghost var closes0 := multiset(os.closes);
      after, first := Execute(variables, program[0], os, p);
      ghost var closes1 := multiset(os.closes);
      after, rest := Run(after, program[1..], os, Step(p, program[0]));
      released := first + rest;
      ReleasesAdd(p.released, Step(p, program[0]).released, RunAll(p, program).released,
                  multiset(first), multiset(rest), Taken(program[0]), Adopted(program[1..]));
      ClosesAdd(closes0, closes1, multiset(os.closes),
                p.disposed, Step(p, program[0]).disposed, RunAll(p, program).disposed);
    }
  }
}
