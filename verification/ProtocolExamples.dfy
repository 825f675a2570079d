/** Runs from start-up in which requests succeed: what the kernel ends up with, exactly. */
module ProtocolExamples {
  import opened Options
  import opened RefCounts
  import opened Protocol
  import opened ProtocolRuns
  import opened ProtocolWrites

  // ---- Create, then a write to the created file

  /** `Create` opens its file, finds its inode, asks for its generation and replies; a
      write to the new handle is answered. */
  function CreateRun(): seq<Step> {
    [Kernel(Create(ROOT_ID)), Run(0, Descriptor(5)), Run(0, Descriptor(4)), Run(0, Attributes(Key(1, 7))),
     Run(0, Address(100)), Run(0, Descriptor(6)), Run(0, Proceed), Run(0, Proceed),
     Run(0, Proceed), Run(0, Proceed), Kernel(Write(5)), Run(1, Proceed)]
  }

  function ChildStatted(): State {
    Init(THE_ROOT).(tasks := [Resolved(ROOT_ID, Entry(Some(5)), THE_FILE)],
                    open := map[3 := ByRoot, 5 := ByTask(0), 4 := ByTask(0)])
  }

  function EntryGranted(): State {
    State(THE_ROOT, map[100 := THE_FILE], map[THE_FILE.key := Slot(2, 100)],
          map[3 := ByRoot, 5 := ByTask(0), 4 := ByNode(100)], [Granted(Some(5), 100)], multiset{}, multiset{}, map[], 1)
  }

  /** The new inode has one reference, the kernel's; the file is open on it; the write has
      read it and will read it again. */
  function CreatedAndWritten(): State {
    State(THE_ROOT, map[100 := THE_FILE], map[THE_FILE.key := Slot(1, 100)],
          map[3 := ByRoot, 5 := ByHandle, 4 := ByNode(100)], [Unwind([]), Answered(100, THE_FILE)],
          multiset{100}, multiset{}, map[5 := 100], 1)
  }

  lemma StatChild()
    ensures ExecAll(Init(THE_ROOT), CreateRun()) == ExecAll(ChildStatted(), CreateRun()[4..])
  {
    var steps, s0 := CreateRun(), Init(THE_ROOT);
    var s1 := s0.(tasks := [CreateFile(ROOT_ID)]);
    var s2 := s1.(tasks := [Resolve(ROOT_ID, Entry(Some(5)))], open := map[3 := ByRoot, 5 := ByTask(0)]);
    var s3 := s2.(tasks := [Opened(ROOT_ID, Entry(Some(5)), 4)], open := ChildStatted().open);
    assert Exec(s0, steps[0]) == Next(s1);
    assert Exec(s1, steps[1]) == Next(s2);
    assert Exec(s2, steps[2]) == Next(s3);
    assert Exec(s3, steps[3]) == Next(ChildStatted());
    ExecOne(s0, steps);
    ExecOne(s1, steps[1..]);
    ExecOne(s2, steps[2..]);
    ExecOne(s3, steps[3..]);
  }

  lemma GrantEntry()
    ensures ExecAll(ChildStatted(), CreateRun()[4..]) == ExecAll(EntryGranted(), CreateRun()[8..])
  {
    var steps, s4 := CreateRun()[4..], ChildStatted();
    var s5 := EntryGranted().(tasks := [Held(ROOT_ID, Entry(Some(5)), 100)],
                              cache := map[THE_FILE.key := Slot(1, 100)]);
    var s6 := s5.(tasks := [Probing(ROOT_ID, Entry(Some(5)), 100, 6)], open := s5.open[6 := ByTask(0)]);
    var s7 := s5.(tasks := [Described(ROOT_ID, Entry(Some(5)), 100)]);
    assert Exec(s4, steps[0]) == Next(s5);
    assert Exec(s5, steps[1]) == Next(s6);
    assert s6.open - {6} == s7.open;
    assert Exec(s6, steps[2]) == Next(s7);
    assert Exec(s7, steps[3]) == Next(EntryGranted());
    ExecOne(s4, steps);
    ExecOne(s5, steps[1..]);
    ExecOne(s6, steps[2..]);
    ExecOne(s7, steps[3..]);
  }

  function Created(): State {
    CreatedAndWritten().(tasks := [Unwind([])])
  }

  lemma TakeFile()
    ensures ExecAll(EntryGranted(), CreateRun()[8..]) == ExecAll(Created(), CreateRun()[10..])
  {
    var steps, s8 := CreateRun()[8..], EntryGranted();
    var s9 := s8.(tasks := [Unwind([Drop(100)])], lookups := multiset{100}, handles := map[5 := 100],
                  open := map[3 := ByRoot, 5 := ByHandle, 4 := ByNode(100)]);
    assert Exec(s8, steps[0]) == Next(s9);
    assert [Drop(100)][1..] == [];
    assert s9.cache[THE_FILE.key := Slot(1, 100)] == Created().cache;
    assert Exec(s9, steps[1]) == Next(Created());
    ExecOne(s8, steps);
    ExecOne(s9, steps[1..]);
  }

  lemma WriteIt()
    ensures ExecAll(Created(), CreateRun()[10..]) == Next(CreatedAndWritten())
  {
    var steps := CreateRun()[10..];
    var s11 := Created().(tasks := [Unwind([]), Writing(100)]);
    assert Exec(Created(), steps[0]) == Next(s11);
    assert Exec(s11, steps[1]) == Next(CreatedAndWritten());
    ExecOne(Created(), steps);
    ExecOne(s11, steps[1..]);
  }

  /** The kernel holds one lookup on the new inode and a handle that is open on it, and a
      write to the handle is a write to that inode. */
  lemma CreateThenWrite()
    ensures ExecAll(Init(THE_ROOT), CreateRun()) == Next(CreatedAndWritten())
  {
    StatChild();
    GrantEntry();
    TakeFile();
    WriteIt();
  }

  // ---- Mkdir, Mknod, Symlink, Link

  /** The handler reads its inode, its own call succeeds, and the new name is looked up;
      the kernel then opens what it was given. */
  function MakeRun(): seq<Step> {
    [Kernel(Use({ROOT_ID}, Some(ROOT_ID))), Run(0, Proceed), Run(0, End)] + OpenRun()[1..]
  }

  lemma LookUpAndOpen()
    ensures ExecAll(Init(THE_ROOT), OpenRun()) == Next(FileOpen())
  {
    FindFile();
    GiveFile();
    OpenIt();
  }

  function Resolving(): State {
    Init(THE_ROOT).(tasks := [Resolve(ROOT_ID, Entry(None))])
  }

  lemma LookupArrives()
    ensures ExecAll(Init(THE_ROOT), OpenRun()) == ExecAll(Resolving(), OpenRun()[1..])
  {
    assert Exec(Init(THE_ROOT), OpenRun()[0]) == Next(Resolving());
    ExecOne(Init(THE_ROOT), OpenRun());
  }

  lemma MakeResolves(rest: seq<Step>)
    ensures ExecAll(Init(THE_ROOT), [Kernel(Use({ROOT_ID}, Some(ROOT_ID))), Run(0, Proceed), Run(0, End)] + rest) ==
      ExecAll(Resolving(), rest)
  {
    var steps, s0 := [Kernel(Use({ROOT_ID}, Some(ROOT_ID))), Run(0, Proceed), Run(0, End)] + rest, Init(THE_ROOT);
    var s1 := s0.(tasks := [Using({ROOT_ID}, Some(ROOT_ID), None)]);
    assert Exec(s0, steps[0]) == Next(s1);
    assert Exec(s1, steps[1]) == Next(s1);
    assert Exec(s1, steps[2]) == Next(Resolving());
    ExecOne(s0, steps);
    ExecOne(s1, steps[1..]);
    ExecOne(s1, steps[2..]);
    assert steps[1..][1..] == steps[2..] && steps[2..][1..] == rest;
  }

  /** The kernel ends up with the node, and a file open on it, as after a lookup. */
  lemma MakeGivesNode()
    ensures ExecAll(Init(THE_ROOT), MakeRun()) == Next(FileOpen())
  {
    MakeResolves(OpenRun()[1..]);
    LookupArrives();
    LookUpAndOpen();
  }

  // ---- A plain listing, and a handler with a descriptor of its own

  /** `ReadDir` of one entry, which is taken by the kernel. */
  function PlainRun(): seq<Step> {
    [Kernel(ReadDir(ROOT_ID, false)), Run(0, Descriptor(4)), Run(0, Attributes(Key(1, 7))), Run(0, Address(100)),
     Run(0, Proceed), Run(0, Proceed), Run(0, Proceed), Run(0, End), Run(0, Accept(multiset{}))]
  }

  function PlainHeld(): State {
    FileFound().(tasks := [Held(ROOT_ID, Listing(false, []), 100)])
  }

  lemma PlainFinds()
    ensures ExecAll(Init(THE_ROOT), PlainRun()) == ExecAll(PlainHeld(), PlainRun()[4..])
  {
    var steps, s0 := PlainRun(), Init(THE_ROOT);
    var s1 := s0.(tasks := [Resolve(ROOT_ID, Listing(false, []))]);
    var s2 := s1.(tasks := [Opened(ROOT_ID, Listing(false, []), 4)], open := map[3 := ByRoot, 4 := ByTask(0)]);
    var s3 := s2.(tasks := [Resolved(ROOT_ID, Listing(false, []), THE_FILE)]);
    assert Exec(s0, steps[0]) == Next(s1);
    assert Exec(s1, steps[1]) == Next(s2);
    assert Exec(s2, steps[2]) == Next(s3);
    assert Exec(s3, steps[3]) == Next(PlainHeld());
    ExecOne(s0, steps);
    ExecOne(s1, steps[1..]);
    ExecOne(s2, steps[2..]);
    ExecOne(s3, steps[3..]);
  }

  function PlainDropped(): State {
    Init(THE_ROOT).(tasks := [Resolve(ROOT_ID, Listing(false, []))], clock := 1)
  }

  lemma PlainDrops()
    ensures ExecAll(PlainHeld(), PlainRun()[4..]) == ExecAll(PlainDropped(), PlainRun()[7..])
  {
    var steps, s4 := PlainRun()[4..], PlainHeld();
    var s5 := s4.(tasks := [Described(ROOT_ID, Listing(false, []), 100)]);
    var s6 := s4.(tasks := [Dropping(ROOT_ID, Listing(false, []), 100, false)]);
    assert Exec(s4, steps[0]) == Next(s5);
    assert Exec(s5, steps[1]) == Next(s6);
    assert s6.open - {4} == PlainDropped().open;
    assert Exec(s6, steps[2]) == Next(PlainDropped());
    ExecOne(s4, steps);
    ExecOne(s5, steps[1..]);
    ExecOne(s6, steps[2..]);
  }

  lemma PlainReplies()
    ensures ExecAll(PlainDropped(), PlainRun()[7..]) == Next(PlainDropped().(tasks := [Unwind([])]))
  {
    var steps, s7 := PlainRun()[7..], PlainDropped();
    var s8 := s7.(tasks := [Send(false, [])]);
    assert Exec(s7, steps[0]) == Next(s8);
    var got: seq<Addr> := [];
    assert multiset(got) == multiset{} && s8.uncounted + (multiset(got) - multiset{}) == s8.uncounted;
    assert Exec(s8, steps[1]) == Next(PlainDropped().(tasks := [Unwind([])]));
    ExecOne(s7, steps);
    ExecOne(s8, steps[1..]);
  }

  /** A plain listing succeeds and leaves nothing behind: not even the inode it met, whose
      descriptor is closed again. */
  lemma PlainListingLeavesNothing()
    ensures ExecAll(Init(THE_ROOT), PlainRun()) == Next(Init(THE_ROOT).(tasks := [Unwind([])], clock := 1))
  {
    PlainFinds();
    PlainDrops();
    PlainReplies();
  }

  /** `SetAttr` without a handle and `Flush` open a descriptor of their own and close it. */
  lemma OwnDescriptorIsClosed()
    ensures ExecAll(Init(THE_ROOT), [Kernel(Use({ROOT_ID}, None)), Run(0, Descriptor(8)), Run(0, End), Run(0, Proceed)])
      == Next(Init(THE_ROOT).(tasks := [Unwind([])]))
  {
    var steps := [Kernel(Use({ROOT_ID}, None)), Run(0, Descriptor(8)), Run(0, End), Run(0, Proceed)];
    var s0 := Init(THE_ROOT);
    var s1 := s0.(tasks := [Using({ROOT_ID}, None, None)]);
    var s2 := s0.(tasks := [Using({ROOT_ID}, None, Some(8))], open := map[3 := ByRoot, 8 := ByTask(0)]);
    var s3 := s2.(tasks := [Unwind([Close(8)])]);
    assert Exec(s0, steps[0]) == Next(s1);
    assert Exec(s1, steps[1]) == Next(s2);
    assert Exec(s2, steps[2]) == Next(s3);
    assert s3.open - {8} == s0.open && [Close(8)][1..] == [];
    assert Exec(s3, steps[3]) == Next(s0.(tasks := [Unwind([])]));
    ExecOne(s0, steps);
    ExecOne(s1, steps[1..]);
    ExecOne(s2, steps[2..]);
    ExecOne(s3, steps[3..]);
  }
}
