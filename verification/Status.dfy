/** Statuses, and the errno each of them is reported to the kernel as. */
module Statuses {
  import opened Options
  import opened Errno

  datatype Code =
    | OkCode | Cancelled | UnknownCode | InvalidArgument | DeadlineExceeded | NotFound | AlreadyExists
    | PermissionDenied | ResourceExhausted | FailedPrecondition | Aborted | OutOfRange | Unimplemented
    | Internal | Unavailable | DataLoss | Unauthenticated | OtherCode

  /** An `absl::Status`: its code and the payload under the errno type url. */
  datatype Status = Status(code: Code, errno: Option<string>) {
    predicate Ok() {
      code.OkCode?
    }
  }

  const OK_STATUS := Status(OkCode, None)

  /** What the C library and absl contribute. */
  datatype Libc = Libc(names: NameOracle, codeOf: int32 -> Code)

  /** Names are faithful, and absl maps 0 - and nothing else - to OK. */
  ghost predicate GoodLibc(libc: Libc) {
    Faithful(libc.names) && forall e: int32 :: libc.codeOf(e).OkCode? <==> e == 0
  }

  /** A payload cannot be put on an OK status. */
  function SetPayload(st: Status, text: string): Status {
    if st.Ok() then st else st.(errno := Some(text))
  }

  function ErrnoToStatus(libc: Libc, e: int32): Status {
    SetPayload(Status(libc.codeOf(e), None), ErrnoToErrorName(libc.names, e))
  }

  /** `None` is the source's not-found error. */
  function GetErrnoFromStatus(st: Status): Option<int32> {
    match st.errno
    case None => None
    case Some(text) => ErrorNameToErrno(text)
  }

  const EPERM: int32 := 1
  const ENOENT: int32 := 2
  const EAGAIN: int32 := 11
  const EBUSY: int32 := 16
  const EEXIST: int32 := 17
  const EINVAL: int32 := 22
  const ENOSPC: int32 := 28
  const ERANGE: int32 := 34
  const EDEADLK: int32 := 35
  const ENOSYS: int32 := 38
  const ECOMM: int32 := 70
  const EPROTO: int32 := 71
  const ELIBBAD: int32 := 80
  const ETIMEDOUT: int32 := 110
  const ECANCELED: int32 := 125
  const ENOTRECOVERABLE: int32 := 131

  function StatusCodeToErrno(code: Code): int32 {
    match code
    case OkCode => 0
    case InvalidArgument => EINVAL
    case DeadlineExceeded => ETIMEDOUT
    case NotFound => ENOENT
    case AlreadyExists => EEXIST
    case PermissionDenied => EPERM
    case Unauthenticated => EPERM
    case OutOfRange => ERANGE
    case FailedPrecondition => EBUSY
    case ResourceExhausted => ENOSPC
    case Cancelled => ECANCELED
    case Aborted => EDEADLK
    case Unimplemented => ENOSYS
    case Unavailable => EAGAIN
    case DataLoss => ENOTRECOVERABLE
    case Internal => ELIBBAD
    case UnknownCode => EPROTO
    case OtherCode => EPROTO
  }

  /** The errno `ReplyFailure` sends for a failed status. */
  function FailureErrno(st: Status): int32 {
    match GetErrnoFromStatus(st)
    case Some(e) => e
    case None => StatusCodeToErrno(st.code)
  }

  // ---- What a status keeps of the errno it was made from

  lemma ErrnoStatusOk(libc: Libc, e: int32)
    requires GoodLibc(libc)
    ensures ErrnoToStatus(libc, e).Ok() <==> e == 0
  {}

  lemma StatusKeepsErrno(libc: Libc, e: int32)
    requires GoodLibc(libc) && e != 0
    ensures GetErrnoFromStatus(ErrnoToStatus(libc, e)) == if Decodable(libc.names, e) then Some(e) else None
  {
    CodecRoundTrip(libc.names, e);
  }

  /** A failed system call's errno reaches the kernel unchanged exactly when its name
      can be read back, or the code it falls back on happens to stand for it. */
  lemma ErrnoFidelity(libc: Libc, e: int32)
    requires GoodLibc(libc) && e != 0
    ensures FailureErrno(ErrnoToStatus(libc, e)) ==
      if Decodable(libc.names, e) then e else StatusCodeToErrno(libc.codeOf(e))
    ensures FailureErrno(ErrnoToStatus(libc, e)) == e <==>
      (Decodable(libc.names, e) || StatusCodeToErrno(libc.codeOf(e)) == e)
  {
    StatusKeepsErrno(libc, e);
  }

  /** No failure is reported as success: neither an errno's status nor a status
      without an errno is ever sent as 0. */
  lemma FailureIsNeverZero(libc: Libc, e: int32, st: Status)
    requires GoodLibc(libc) && !st.Ok()
    requires st.errno.None? || (e != 0 && st == ErrnoToStatus(libc, e))
    ensures FailureErrno(st) != 0
  {
    if st.errno.Some? {
      ErrnoFidelity(libc, e);
    }
  }

  lemma EioIsNotInTable()
    ensures KnownErrno("EIO").None?
  {
    assert |"EIO"| == 3;
  }

  /** The table has no entry for EIO: where the C library names it and absl has no code
      of its own for it, an I/O error is reported as a protocol error. */
  lemma EioIsReportedAsEproto(libc: Libc)
    requires GoodLibc(libc) && libc.names(5) == Some("EIO") && libc.codeOf(5) == UnknownCode
    ensures FailureErrno(ErrnoToStatus(libc, 5)) == EPROTO
  {
    EioIsNotInTable();
    ErrnoFidelity(libc, 5);
  }
}
