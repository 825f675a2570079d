/** `FuseRequest`, the token every operation must complete, and the callback wrappers
    that complete it. */
module FuseRequests {
  import opened Options
  import opened Errno
  import opened Statuses

  type Byte = n: nat | n < 256

  type ReqId = nat

  /** What libfuse returns from a reply: 0 when the kernel took it, else -errno. */
  type ReplyResult = rc: int32 | -4095 <= rc <= 0

  datatype Reply =
    | ErrReply(e: int32)
    | EntryReply(ino: nat)
    | CreateReply(ino: nat, fh: int)
    | BufReply(bytes: seq<Byte>)
    | OtherReply              // attributes, open, data, write, statfs, lock, lseek, poll, ...
    | NoReply                 // fuse_reply_none

  datatype Completion = Completion(req: ReqId, reply: Reply, rc: ReplyResult) {
    predicate Accepted() {
      rc == 0
    }
  }

  /** libfuse's side: every completion of every request, in order. */
  class Session {
    const libc: Libc
    var log: seq<Completion>

    constructor (libc: Libc)
      ensures this.libc == libc && log == []
    {
      this.libc := libc;
      log := [];
    }
  }

  class FuseRequest {
    var req: Option<ReqId>

    constructor Empty()
      ensures req == None
    {
      req := None;
    }

    constructor (id: ReqId)
      ensures req == Some(id)
    {
      req := Some(id);
    }

    constructor Move(o: FuseRequest)
      modifies o
      ensures req == old(o.req) && o.req == None
    {
      req := None;
      new;
      MoveAssign(o);
    }

    method MoveAssign(o: FuseRequest)
      modifies this, o
      ensures req == old(o.req) && o.req == old(req)
    {
      req, o.req := o.req, req;
    }

    /** The common shape of `ReplyAttr`, `ReplyOpen`, `ReplyCreate`, `ReplyErrno`,
        `ReplyBuf`, `ReplyEntry` and the rest: a request that is no longer pending is
        answered with OK and nothing is sent. */
    method Reply(session: Session, reply: Reply, rc: ReplyResult) returns (st: Status)
      modifies this, session
      ensures req == None
      ensures old(req).None? ==> st == OK_STATUS && session.log == old(session.log)
      ensures old(req).Some? ==>
        && st == ErrnoToStatus(session.libc, 0 - rc)
        && session.log == old(session.log) + [Completion(old(req).value, reply, rc)]
    {
      if req.None? { return OK_STATUS; }
      session.log := session.log + [Completion(req.value, reply, rc)];
      st := ErrnoToStatus(session.libc, 0 - rc);
      req := None;
    }

    method ReplyNone(session: Session)
      modifies this, session
      ensures req == None
      ensures session.log == old(session.log) + Sent(old(req), NoReply, 0)
    {
      if req.None? { return; }
      session.log := session.log + [Completion(req.value, NoReply, 0)];
      req := None;
    }

    /** Callers must not report success as a failure: the source CHECKs it. */
    method ReplyFailure(session: Session, status: Status, rc: ReplyResult) returns (st: Status)
      requires !status.Ok()
      modifies this, session
      ensures req == None
      ensures session.log == old(session.log) + Sent(old(req), ErrReply(FailureErrno(status)), rc)
    {
      if req.None? { return OK_STATUS; }
      var found := GetErrnoFromStatus(status);
      if found.None? { found := Some(StatusCodeToErrno(status.code)); }
      st := Reply(session, ErrReply(found.value), rc);
      req := None;
    }

    method ReplyFailureAndLogIfNotOk(session: Session, status: Status, rc: ReplyResult)
      modifies this, session
      ensures status.Ok() ==> req == old(req) && session.log == old(session.log)
      ensures !status.Ok() ==>
        req == None && session.log == old(session.log) + Sent(old(req), ErrReply(FailureErrno(status)), rc)
    {
      if status.Ok() { return; }
      var st := ReplyFailure(session, status, rc);
    }

    method ReplyAlwaysAndLogIfNotOk(session: Session, status: Status, rc: ReplyResult)
      modifies this, session
      ensures req == None
      ensures session.log ==
        old(session.log) + Sent(old(req), ErrReply(if status.Ok() then 0 else FailureErrno(status)), rc)
    {
      var st;
      if status.Ok() {
        st := Reply(session, ErrReply(0), rc);
      } else {
        st := ReplyFailure(session, status, rc);
      }
    }

    /** The destructor answers for whoever forgot to. */
    method Destroy(session: Session, rc: ReplyResult)
      modifies this, session
      ensures req == None
      ensures session.log == old(session.log) + Sent(old(req), ErrReply(ECOMM), rc)
    {
      if req.None? { return; }
      var st := Reply(session, ErrReply(ECOMM), rc);
    }
  }

  function Sent(req: Option<ReqId>, reply: Reply, rc: ReplyResult): seq<Completion> {
    if req.Some? then [Completion(req.value, reply, rc)] else []
  }

  // ---- The callback wrappers

  datatype Call = Call(reply: Reply, rc: ReplyResult)

  /** All a handler can do to its request: answer any number of times, with any
      results, and return any status. */
  datatype Behaviour = Behaviour(calls: seq<Call>, status: Status)

  /** How a wrapper completes what the handler left open. */
  datatype Completing =
    | FailureOnly
    | Always
    | Never

  method Handle(req: FuseRequest, session: Session, handler: Behaviour) returns (status: Status)
    modifies req, session
    ensures status == handler.status
    ensures handler.calls == [] ==> req.req == old(req.req) && session.log == old(session.log)
    ensures handler.calls != [] ==>
      && req.req == None
      && session.log == old(session.log) + Sent(old(req.req), handler.calls[0].reply, handler.calls[0].rc)
  {
    for k := 0 to |handler.calls|
      invariant k == 0 ==> req.req == old(req.req) && session.log == old(session.log)
      invariant k > 0 ==>
        && req.req == None
        && session.log == old(session.log) + Sent(old(req.req), handler.calls[0].reply, handler.calls[0].rc)
    {
      var st := req.Reply(session, handler.calls[k].reply, handler.calls[k].rc);
    }
    status := handler.status;
  }

  /** The one completion an operation gets. */
  function Answer(kind: Completing, id: ReqId, handler: Behaviour, wrapperRc: ReplyResult, destructorRc: ReplyResult)
    : Completion
  {
    if handler.calls != [] then Completion(id, handler.calls[0].reply, handler.calls[0].rc)
    else if kind.Never? then Completion(id, NoReply, 0)
    else if !handler.status.Ok() then Completion(id, ErrReply(FailureErrno(handler.status)), wrapperRc)
    else if kind.Always? then Completion(id, ErrReply(0), wrapperRc)
    else Completion(id, ErrReply(ECOMM), destructorRc)
  }

  /** Whatever the handler does, the wrapper and the request's destructor complete the
      request exactly once.  Before that the wrapper CHECKs the pointers it was given:
      with a null one among them the server aborts, and nothing is completed. */
  method Serve(op: Operation, pointers: bool, session: Session, id: ReqId, handler: Behaviour,
               wrapperRc: ReplyResult, destructorRc: ReplyResult)
    returns (aborted: bool)
    modifies session
    ensures aborted <==> !pointers
    ensures session.log == old(session.log) +
      if aborted then [] else [Answer(WrapperOf(op), id, handler, wrapperRc, destructorRc)]
  {
    if !pointers { return true; }
    aborted := false;
    var req := new FuseRequest(id);
    var status := Handle(req, session, handler);
    match WrapperOf(op) {
      case FailureOnly => req.ReplyFailureAndLogIfNotOk(session, status, wrapperRc);
      case Always => req.ReplyAlwaysAndLogIfNotOk(session, status, wrapperRc);
      case Never => req.ReplyNone(session);
    }
    req.Destroy(session, destructorRc);
  }

  /** A handler that fails with a system error and sends nothing is never answered
      with success, under any wrapper. */
  lemma FailureNeverAnsweredZero(libc: Libc, kind: Completing, id: ReqId, handler: Behaviour, e: int32,
                                 wrapperRc: ReplyResult, destructorRc: ReplyResult)
    requires GoodLibc(libc) && e != 0 && handler.calls == [] && handler.status == ErrnoToStatus(libc, e)
    ensures Answer(kind, id, handler, wrapperRc, destructorRc).reply != ErrReply(0)
  {
    ErrnoStatusOk(libc, e);
    FailureIsNeverZero(libc, e, handler.status);
  }

  // ---- Which wrapper serves which operation

  datatype Operation =
    | LookupOp | ForgetOp | GetAttrOp | SetAttrOp | ReadLinkOp | MknodOp | MkdirOp | UnlinkOp | RmdirOp
    | SymlinkOp | RenameOp | LinkOp | OpenOp | ReadOp | FlushOp | ReleaseOp | FSyncOp | OpenDirOp
    | ReadDirOp | ReleaseDirOp | FSyncDirOp | StatFSOp | SetXAttrOp | GetXAttrOp | ListXAttrOp
    | RemoveXAttrOp | AccessOp | CreateOp | GetLkOp | SetLkOp | PollOp | WriteBufOp | ForgetMultiOp
    | FLockOp | FAllocateOp | ReadDirPlusOp | CopyFileRangeOp | LSeekOp

  function WrapperOf(op: Operation): Completing {
    match op
    case ForgetOp => Never
    case ForgetMultiOp => Never
    case WriteBufOp => Never
    case UnlinkOp => Always
    case RmdirOp => Always
    case RenameOp => Always
    case ReadOp => Always
    case FlushOp => Always
    case ReleaseOp => Always
    case FSyncOp => Always
    case ReadDirOp => Always
    case ReleaseDirOp => Always
    case FSyncDirOp => Always
    case SetXAttrOp => Always
    case RemoveXAttrOp => Always
    case AccessOp => Always
    case FLockOp => Always
    case FAllocateOp => Always
    case ReadDirPlusOp => Always
    case _ => FailureOnly
  }

  /** What each operation is answered with.  A handler's first reply stands.  A handler
      that sent none is never answered for a forget or a buffered write; is answered with
      its failure's errno for everything else; and when it succeeded, is answered with 0
      by some wrappers and with ECOMM, which is 70, under the others. */
  lemma OperationAnswered(op: Operation, id: ReqId, handler: Behaviour, wrapperRc: ReplyResult,
                          destructorRc: ReplyResult)
    ensures var answer := Answer(WrapperOf(op), id, handler, wrapperRc, destructorRc);
      if handler.calls != [] then answer == Completion(id, handler.calls[0].reply, handler.calls[0].rc)
      else if op in {ForgetOp, ForgetMultiOp, WriteBufOp} then answer == Completion(id, NoReply, 0)
      else if !handler.status.Ok() then answer == Completion(id, ErrReply(FailureErrno(handler.status)), wrapperRc)
      else if op in {UnlinkOp, RmdirOp, RenameOp, ReadOp, FlushOp, ReleaseOp, FSyncOp, ReadDirOp, ReleaseDirOp,
                     FSyncDirOp, SetXAttrOp, RemoveXAttrOp, AccessOp, FLockOp, FAllocateOp, ReadDirPlusOp}
      then answer == Completion(id, ErrReply(0), wrapperRc)
      else answer == Completion(id, ErrReply(70), destructorRc)
  {
    WrapperClasses(op);
  }

  lemma WrapperClasses(op: Operation)
    ensures WrapperOf(op).Never? <==> op in {ForgetOp, ForgetMultiOp, WriteBufOp}
    ensures WrapperOf(op).Always? <==>
      op in {UnlinkOp, RmdirOp, RenameOp, ReadOp, FlushOp, ReleaseOp, FSyncOp, ReadDirOp, ReleaseDirOp, FSyncDirOp,
             SetXAttrOp, RemoveXAttrOp, AccessOp, FLockOp, FAllocateOp, ReadDirPlusOp}
  {}

  /** A system error that can be read back reaches the kernel as it is, whatever operation
      it comes from - except where nothing is answered. */
  lemma SystemErrorAnswered(libc: Libc, op: Operation, id: ReqId, handler: Behaviour, e: int32,
                            wrapperRc: ReplyResult, destructorRc: ReplyResult)
    requires GoodLibc(libc) && e != 0 && handler.calls == [] && handler.status == ErrnoToStatus(libc, e)
    requires Decodable(libc.names, e) && op !in {ForgetOp, ForgetMultiOp, WriteBufOp}
    ensures Answer(WrapperOf(op), id, handler, wrapperRc, destructorRc) == Completion(id, ErrReply(e), wrapperRc)
  {
    OperationAnswered(op, id, handler, wrapperRc, destructorRc);
    ErrnoStatusOk(libc, e);
    ErrnoFidelity(libc, e);
  }

  /** The handlers that do their work and return OK without replying. */
  predicate SilentOnSuccess(op: Operation) {
    op in {UnlinkOp, RmdirOp, RenameOp, FlushOp, ReleaseOp, FSyncOp, ReleaseDirOp, FSyncDirOp, SetXAttrOp,
           RemoveXAttrOp, AccessOp, SetLkOp, FLockOp, FAllocateOp}
  }

  /** Their success is answered as success with one exception: `SetLk` is served by a
      failure-only wrapper, so a lock that was taken is answered with ECOMM. */
  lemma SilentSuccessAnswered(op: Operation, id: ReqId, wrapperRc: ReplyResult, destructorRc: ReplyResult)
    requires SilentOnSuccess(op)
    ensures var answer := Answer(WrapperOf(op), id, Behaviour([], OK_STATUS), wrapperRc, destructorRc);
      && (answer.reply == ErrReply(0) <==> op != SetLkOp)
      && (op == SetLkOp ==> answer == Completion(id, ErrReply(ECOMM), destructorRc))
  {
    assert op == SetLkOp || WrapperOf(op) == Always;
  }
}
