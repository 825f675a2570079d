/** The text form in which errnos travel through a status: the printer, the parser
    and the table of names between them. */
module Errno {
  import opened Options

  /** C's `int`. */
  type int32 = e: int | -0x8000_0000 <= e < 0x8000_0000

  /** `strerrorname_np`. */
  type NameOracle = int32 -> Option<string>

  function ShortErrno(name: string): Option<int32> {
    if name == "E2BIG" then Some(7)
    else if name == "EDOM" then Some(33)
    else if name == "ETIME" then Some(62)
    else if name == "ENXIO" then Some(6)
    else if name == "ESRCH" then Some(3)
    else if name == "EPERM" then Some(1)
    else if name == "EROFS" then Some(30)
    else if name == "EBADF" then Some(9)
    else if name == "EBUSY" then Some(16)
    else if name == "EPIPE" then Some(32)
    else if name == "ENOSR" then Some(63)
    else if name == "EFBIG" then Some(27)
    else if name == "EXDEV" then Some(18)
    else if name == "ECOMM" then Some(70)
    else if name == "EINTR" then Some(4)
    else None
  }

  function NoErrno(name: string): Option<int32> {
    if name == "ENOSTR" then Some(60)
    else if name == "ENOTTY" then Some(25)
    else if name == "ENODEV" then Some(19)
    else if name == "ENOENT" then Some(2)
    else if name == "ENOKEY" then Some(126)
    else if name == "ENOSPC" then Some(28)
    else if name == "ENFILE" then Some(23)
    else if name == "ENOMEM" then Some(12)
    else if name == "ENOPKG" then Some(65)
    else if name == "ENOSYS" then Some(38)
    else if name == "ENOLCK" then Some(37)
    else if name == "ENONET" then Some(64)
    else None
  }

  function SixErrno(name: string): Option<int32> {
    if name == "EINVAL" then Some(22)
    else if name == "EFAULT" then Some(14)
    else if name == "EILSEQ" then Some(84)
    else if name == "ESPIPE" then Some(29)
    else if name == "EEXIST" then Some(17)
    else if name == "EACCES" then Some(13)
    else if name == "EISDIR" then Some(21)
    else if name == "EBADFD" then Some(77)
    else if name == "ECHILD" then Some(10)
    else if name == "EISNAM" then Some(120)
    else if name == "EDQUOT" then Some(122)
    else if name == "EMFILE" then Some(24)
    else if name == "EMLINK" then Some(31)
    else if name == "EUSERS" then Some(87)
    else if name == "ECHRNG" then Some(44)
    else if name == "ERANGE" then Some(34)
    else if name == "EAGAIN" then Some(11)
    else if name == "ESTALE" then Some(116)
    else None
  }

  function MiddleErrno(name: string): Option<int32> {
    if name == "ENOTSOCK" then Some(88)
    else if name == "EALREADY" then Some(114)
    else if name == "ENOTUNIQ" then Some(76)
    else if name == "ENOTDIR" then Some(20)
    else if name == "EISCONN" then Some(106)
    else if name == "ENOTBLK" then Some(15)
    else if name == "ENOTCONN" then Some(107)
    else if name == "ETXTBSY" then Some(26)
    else if name == "EUNATCH" then Some(49)
    else if name == "ENOBUFS" then Some(105)
    else if name == "ENODATA" then Some(61)
    else if name == "ENOTSUP" then Some(95)
    else if name == "ENETDOWN" then Some(100)
    else if name == "ENOLINK" then Some(67)
    else if name == "EDEADLK" then Some(35)
    else None
  }

  function LongErrno(name: string): Option<int32> {
    if name == "ENOPROTOOPT" then Some(92)
    else if name == "EPROTOTYPE" then Some(91)
    else if name == "ETIMEDOUT" then Some(110)
    else if name == "ENOMEDIUM" then Some(123)
    else if name == "ENOTEMPTY" then Some(39)
    else if name == "EADDRINUSE" then Some(98)
    else if name == "ESHUTDOWN" then Some(108)
    else if name == "EOVERFLOW" then Some(75)
    else if name == "ECONNRESET" then Some(104)
    else if name == "EHOSTDOWN" then Some(112)
    else if name == "ENETRESET" then Some(102)
    else if name == "ENETUNREACH" then Some(101)
    else if name == "ECANCELED" then Some(125)
    else None
  }

  function LongestErrno(name: string): Option<int32> {
    if name == "ENAMETOOLONG" then Some(36)
    else if name == "EDESTADDRREQ" then Some(89)
    else if name == "EADDRNOTAVAIL" then Some(99)
    else if name == "EAFNOSUPPORT" then Some(97)
    else if name == "EPFNOSUPPORT" then Some(96)
    else if name == "EPROTONOSUPPORT" then Some(93)
    else if name == "ESOCKTNOSUPPORT" then Some(94)
    else if name == "ECONNREFUSED" then Some(111)
    else if name == "ECONNABORTED" then Some(103)
    else if name == "EHOSTUNREACH" then Some(113)
    else None
  }

  /** The table of names with the values Linux gives them.  It is a hash map in the source;
      here a name is looked for among those of about its length. */
  function KnownErrno(name: string): Option<int32> {
    if name == "OK" then Some(0)
    else if |name| <= 5 then ShortErrno(name)
    else if |name| == 6 then if name[1] == 'N' then NoErrno(name) else SixErrno(name)
    else if |name| <= 8 then MiddleErrno(name)
    else if |name| <= 11 then LongErrno(name)
    else LongestErrno(name)
  }

  const UNKNOWN_PREFIX := "UNKNOWN ("

  // ---- Decimal numbers, as `absl::StrFormat("%d")` prints and `absl::SimpleAtoi` reads them

  predicate IsDigit(c: char) {
    '0' <= c <= '9'
  }

  predicate IsSpace(c: char) {
    c == ' ' || 9 as char <= c <= 13 as char
  }

  function DigitChar(d: nat): char
    requires d < 10
  {
    '0' + d as char
  }

  function PrintNat(n: nat): string {
    if n < 10 then [DigitChar(n)] else PrintNat(n / 10) + [DigitChar(n % 10)]
  }

  function PrintInt(n: int): string {
    if n < 0 then "-" + PrintNat(-n) else PrintNat(n)
  }

  function ParseNat(s: string): Option<nat> {
    if s == "" then Some(0)
    else
      match ParseNat(s[..|s| - 1])
      case None => None
      case Some(n) =>
        var c := s[|s| - 1];
        if IsDigit(c) then Some(10 * n + (c as int - '0' as int)) else None
  }

  function TrimLeft(s: string): string {
    if s != "" && IsSpace(s[0]) then TrimLeft(s[1..]) else s
  }

  function TrimRight(s: string): string {
    if s != "" && IsSpace(s[|s| - 1]) then TrimRight(s[..|s| - 1]) else s
  }

  /** One sign is allowed, at least one digit is needed, and a value outside the 32-bit
      range is refused. */
  function ParseTrimmed(s: string): Option<int32> {
    var digits := if s != "" && (s[0] == '-' || s[0] == '+') then s[1..] else s;
    if digits == "" then None
    else
      match ParseNat(digits)
      case None => None
      case Some(n) =>
        var value: int := if s[0] == '-' then 0 - n else n;
        if -0x8000_0000 <= value < 0x8000_0000 then Some(value) else None
  }

  /** Surrounding space is skipped. */
  function ParseInt(text: string): Option<int32> {
    ParseTrimmed(TrimRight(TrimLeft(text)))
  }

  // ---- The codec

  function ErrnoToErrorName(names: NameOracle, e: int32): string {
    if e == 0 then "OK"
    else
      match names(e)
      case Some(name) => name
      case None => UNKNOWN_PREFIX + PrintInt(e) + ")"
  }

  /** The number inside `UNKNOWN (...)`, when the text has that form. */
  function ParseUnknown(text: string): Option<int32> {
    if !(UNKNOWN_PREFIX <= text) then None
    else
      var rest := text[|UNKNOWN_PREFIX|..];
      if rest != "" && rest[|rest| - 1] == ')' then ParseInt(rest[..|rest| - 1]) else None
  }

  /** `None` is the source's not-found error. */
  function ErrorNameToErrno(text: string): Option<int32> {
    match ParseUnknown(text)
    case Some(e) => Some(e)
    case None => KnownErrno(text)
  }

  // ---- Decimal round trip

  lemma {:induction false} PrintNatShape(n: nat)
    ensures PrintNat(n) != "" && forall i | 0 <= i < |PrintNat(n)| :: IsDigit(PrintNat(n)[i])
  {
    if n >= 10 {
      PrintNatShape(n / 10);
    }
  }

  lemma {:induction false} ParsePrintNat(n: nat)
    ensures ParseNat(PrintNat(n)) == Some(n)
  {
    if n < 10 {
      assert PrintNat(n)[..0] == "";
    } else {
      var s := PrintNat(n);
      assert s[..|s| - 1] == PrintNat(n / 10);
      ParsePrintNat(n / 10);
    }
  }

  lemma NothingToTrim(s: string)
    requires s != "" && !IsSpace(s[0]) && !IsSpace(s[|s| - 1])
    ensures TrimRight(TrimLeft(s)) == s
  {}

  lemma ParseSign(text: string, s: string, m: nat)
    requires text == "-" + s && s != "" && ParseNat(s) == Some(m) && m <= 0x8000_0000
    ensures ParseTrimmed(text) == Some(0 - m)
  {
    assert text[1..] == s;
  }

  lemma ParsePlain(s: string, m: nat)
    requires s != "" && IsDigit(s[0]) && IsDigit(s[|s| - 1]) && ParseNat(s) == Some(m) && m < 0x8000_0000
    ensures ParseInt(s) == Some(m)
  {
    NothingToTrim(s);
  }

  lemma ParseNegative(text: string, s: string, m: nat)
    requires text == "-" + s && s != "" && IsDigit(s[|s| - 1]) && ParseNat(s) == Some(m) && m <= 0x8000_0000
    ensures ParseInt(text) == Some(0 - m)
  {
    NothingToTrim(text);
    ParseSign(text, s, m);
  }

  /** Reading back a printed number, negative ones included. */
  lemma ParsePrintInt(n: int32)
    ensures ParseInt(PrintInt(n)) == Some(n)
  {
    var m: int := if n < 0 then 0 - n else n;
    PrintNatShape(m);
    ParsePrintNat(m);
    if n < 0 { ParseNegative(PrintInt(n), PrintNat(m), m); } else { ParsePlain(PrintNat(m), m); }
  }

  // ---- The codec round trip

  lemma ShortErrnoNames(name: string)
    requires name != "" && name[0] == 'U'
    ensures ShortErrno(name).None?
  {}

  lemma NoErrnoNames(name: string)
    requires name != "" && name[0] == 'U'
    ensures NoErrno(name).None?
  {}

  lemma SixErrnoNames(name: string)
    requires name != "" && name[0] == 'U'
    ensures SixErrno(name).None?
  {}

  lemma MiddleErrnoNames(name: string)
    requires name != "" && name[0] == 'U'
    ensures MiddleErrno(name).None?
  {}

  lemma LongErrnoNames(name: string)
    requires name != "" && name[0] == 'U'
    ensures LongErrno(name).None?
  {}

  lemma LongestErrnoNames(name: string)
    requires name != "" && name[0] == 'U'
    ensures LongestErrno(name).None?
  {}

  lemma NamesStartOtherwise(name: string)
    requires name != "" && name[0] == 'U'
    ensures KnownErrno(name).None?
  {
    ShortErrnoNames(name);
    NoErrnoNames(name);
    SixErrnoNames(name);
    MiddleErrnoNames(name);
    LongErrnoNames(name);
    LongestErrnoNames(name);
  }

  /** No name in the table can be taken for the unknown form. */
  lemma TableNamesAreNotUnknown(name: string)
    requires KnownErrno(name).Some?
    ensures ParseUnknown(name).None?
  {
    if UNKNOWN_PREFIX <= name {
      assert name[0] == UNKNOWN_PREFIX[0];
      NamesStartOtherwise(name);
    }
  }

  /** The oracle's names mean what the table says they mean, and none of them looks
      like the unknown form. */
  ghost predicate Faithful(names: NameOracle) {
    forall e: int32 :: names(e).Some? ==>
      ParseUnknown(names(e).value).None? && KnownErrno(names(e).value) in {None, Some(e)}
  }

  /** The printed form is "OK", a name in the table, or the unknown form. */
  predicate Decodable(names: NameOracle, e: int32) {
    e == 0 || names(e).None? || KnownErrno(names(e).value).Some?
  }

  lemma ParseUnknownForm(e: int32)
    ensures ParseUnknown(UNKNOWN_PREFIX + PrintInt(e) + ")") == Some(e)
  {
    var text := UNKNOWN_PREFIX + PrintInt(e) + ")";
    assert UNKNOWN_PREFIX <= text;
    var rest := text[|UNKNOWN_PREFIX|..];
    assert rest == PrintInt(e) + ")";
    assert rest[..|rest| - 1] == PrintInt(e);
    ParsePrintInt(e);
  }

  /** The round trip returns every decodable errno, and for the others the parser
      reports that it does not know the name. */
  lemma CodecRoundTrip(names: NameOracle, e: int32)
    requires Faithful(names)
    ensures ErrorNameToErrno(ErrnoToErrorName(names, e)) == if Decodable(names, e) then Some(e) else None
  {
    if e == 0 {
      TableNamesAreNotUnknown("OK");
    } else if names(e).None? {
      ParseUnknownForm(e);
    }
  }
}
