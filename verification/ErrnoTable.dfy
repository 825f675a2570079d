/** The numbers behind the names, written down a second time: those Linux gives the errnos
    of file systems, and the fallbacks the kernel is sent for statuses without an errno. */
module ErrnoTables {
  import opened Options
  import opened Errno
  import opened Statuses

  lemma PathErrnos()
    ensures KnownErrno("ENOENT") == Some(2) && KnownErrno("EEXIST") == Some(17) && KnownErrno("ENOTDIR") == Some(20)
  {}

  lemma DirectoryErrnos()
    ensures KnownErrno("EISDIR") == Some(21) && KnownErrno("ENOTEMPTY") == Some(39)
    ensures KnownErrno("ENAMETOOLONG") == Some(36)
  {}

  lemma AccessErrnos()
    ensures KnownErrno("EPERM") == Some(1) && KnownErrno("EACCES") == Some(13) && KnownErrno("EROFS") == Some(30)
  {}

  lemma ResourceErrnos()
    ensures KnownErrno("ENOSPC") == Some(28) && KnownErrno("ENOMEM") == Some(12) && KnownErrno("EMFILE") == Some(24)
  {}

  lemma HandleErrnos()
    ensures KnownErrno("EBADF") == Some(9) && KnownErrno("ESTALE") == Some(116) && KnownErrno("EXDEV") == Some(18)
  {}

  lemma CallErrnos()
    ensures KnownErrno("EINVAL") == Some(22) && KnownErrno("EINTR") == Some(4) && KnownErrno("EAGAIN") == Some(11)
  {}

  lemma SupportErrnos()
    ensures KnownErrno("ENOSYS") == Some(38) && KnownErrno("ENOTSUP") == Some(95) && KnownErrno("EBUSY") == Some(16)
  {}

  lemma AttributeErrnos()
    ensures KnownErrno("ENODATA") == Some(61) && KnownErrno("ERANGE") == Some(34) && KnownErrno("ENOLCK") == Some(37)
  {}

  /** Names of errnos that the table does not have. */
  lemma MissingErrnos()
    ensures KnownErrno("EIO").None? && KnownErrno("ELOOP").None? && KnownErrno("EOPNOTSUPP").None?
  {}

  /** The form for errnos without a name. */
  lemma UnknownForms(names: NameOracle)
    ensures names(5000).None? ==> ErrnoToErrorName(names, 5000) == "UNKNOWN (5000)"
    ensures names(-17).None? ==> ErrnoToErrorName(names, -17) == "UNKNOWN (-17)"
    ensures ErrnoToErrorName(names, 0) == "OK"
  {
    assert PrintNat(5000) == "5000" && PrintNat(17) == "17";
  }

  /** A status without an errno is reported by its code: as EINVAL, ETIMEDOUT, ENOENT,
      EEXIST, EPERM twice, ERANGE, EBUSY, ENOSPC, ECANCELED, EDEADLK, ENOSYS, EAGAIN,
      ENOTRECOVERABLE, ELIBBAD, and EPROTO for everything else. */
  lemma FallbackErrnos(code: Code)
    requires !code.OkCode?
    ensures FailureErrno(Status(code, None)) ==
      if code == InvalidArgument then 22 else if code == DeadlineExceeded then 110
      else if code == NotFound then 2 else if code == AlreadyExists then 17
      else if code in {PermissionDenied, Unauthenticated} then 1
      else if code == OutOfRange then 34 else if code == FailedPrecondition then 16
      else if code == ResourceExhausted then 28 else if code == Cancelled then 125
      else if code == Aborted then 35 else if code == Unimplemented then 38
      else if code == Unavailable then 11 else if code == DataLoss then 131
      else if code == Internal then 80 else 71
  {}
}
