/** `FusePollHandle`, and the one an inode keeps. */
module PollHandles {
  import opened Options

  /** libfuse's side: the handles destroyed, in order. */
  class PollLibrary {
    var destroyed: seq<nat>

    constructor ()
      ensures destroyed == []
    {
      destroyed := [];
    }
  }

  class FusePollHandle {
    var handle: Option<nat>

    constructor (handle: Option<nat>)
      ensures this.handle == handle
    {
      this.handle := handle;
    }

    constructor Move(o: FusePollHandle)
      modifies o
      ensures handle == old(o.handle) && o.handle == None
    {
      handle := None;
      new;
      MoveAssign(o);
    }

    method MoveAssign(o: FusePollHandle)
      modifies this, o
      ensures handle == old(o.handle) && o.handle == old(handle)
    {
      handle, o.handle := o.handle, handle;
    }

    method Destroy(library: PollLibrary)
      modifies this, library
      ensures handle == None
      ensures library.destroyed == old(library.destroyed) + Held(old(handle))
    {
      if handle.None? { return; }
      library.destroyed := library.destroyed + [handle.value];
      handle := None;
    }
  }

  function Held(handle: Option<nat>): seq<nat> {
    if handle.Some? then [handle.value] else []
  }

  /** `Inode::AddPollHandle`, where `kept` is the inode's member: a null handle changes
      nothing; any other takes the place of the kept one, which the by-value argument
      destroys on its way out. */
  method AddPollHandle(kept: FusePollHandle, argument: FusePollHandle, library: PollLibrary)
    requires kept != argument
    modifies kept, argument, library
    ensures argument.handle == None
    ensures kept.handle == if old(argument.handle).None? then old(kept.handle) else old(argument.handle)
    ensures library.destroyed == old(library.destroyed) +
      if old(argument.handle).None? then [] else Held(old(kept.handle))
  {
    if argument.handle.Some? {
      kept.MoveAssign(argument);
    }
    argument.Destroy(library);
  }

  /** The handles that are not null. */
  function Real(handles: seq<Option<nat>>): seq<nat> {
    if handles == [] then [] else Held(handles[0]) + Real(handles[1..])
  }

  lemma {:induction false} RealAppend(handles: seq<Option<nat>>, handle: Option<nat>)
    ensures Real(handles + [handle]) == Real(handles) + Held(handle)
  {
    if handles != [] {
      assert (handles + [handle])[1..] == handles[1..] + [handle];
      RealAppend(handles[1..], handle);
    }
  }

  /** A whole life of an inode's poll handle: the kernel's handles are destroyed once
      each and in the order they came, the last one with the inode. */
  method PollLife(handles: seq<Option<nat>>, library: PollLibrary)
    modifies library
    ensures library.destroyed == old(library.destroyed) + Real(handles)
  {
    var kept := new FusePollHandle(None);
    for i := 0 to |handles|
      invariant fresh(kept)
      invariant library.destroyed + Held(kept.handle) == old(library.destroyed) + Real(handles[..i])
    {
      RealAppend(handles[..i], handles[i]);
      assert handles[..i + 1] == handles[..i] + [handles[i]];
      var argument := new FusePollHandle(handles[i]);
      ghost var known := library.destroyed + Held(kept.handle);
      AddPollHandle(kept, argument, library);
      assert library.destroyed + Held(kept.handle) == known + Held(handles[i]);
    }
    assert handles[..|handles|] == handles;
    kept.Destroy(library);
  }
}
