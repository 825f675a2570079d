/** Directory listings: the stream they are read from, the bounded buffer they are
    built in, and what the pages add up to. */
module Listings {
  import opened Options
  import opened Statuses
  import opened FuseRequests

  /** `off` is the cookie from which reading goes on after this entry. */
  datatype Dirent = Dirent(name: string, off: nat)

  /** An open directory that nobody changes. */
  class DirStream {
    const entries: seq<Dirent>
    var pos: nat

    constructor (entries: seq<Dirent>)
      ensures this.entries == entries && pos == 0
    {
      this.entries := entries;
      pos := 0;
    }

    /** 0 leads to the beginning, a cookie to just behind the entry that has it. */
    method Seekdir(off: nat)
      modifies this
      ensures pos == PositionOf(entries, off) <= |entries|
      ensures off == 0 ==> pos == 0
      ensures DistinctCookies(entries) ==> forall i | 0 <= i < |entries| && entries[i].off == off :: pos == i + 1
    {
      PositionBound(entries, off);
      pos := PositionOf(entries, off);
      if DistinctCookies(entries) {
        forall i | 0 <= i < |entries| && entries[i].off == off ensures PositionOf(entries, off) == i + 1 {
          AfterEntry(entries, i);
        }
      }
    }

    method Readdir() returns (entry: Option<Dirent>)
      requires pos <= |entries|
      modifies this
      ensures old(pos) == |entries| ==> entry == None && pos == old(pos)
      ensures old(pos) < |entries| ==> entry == Some(entries[old(pos)]) && pos == old(pos) + 1
    {
      if pos == |entries| { return None; }
      entry := Some(entries[pos]);
      pos := pos + 1;
    }
  }

  function After(entries: seq<Dirent>, off: nat): nat {
    if entries == [] then 0
    else if entries[0].off == off then 1
    else 1 + After(entries[1..], off)
  }

  /** 0 is the beginning; a cookie leads to just after its entry, and one that no entry
      has to the end. */
  function PositionOf(entries: seq<Dirent>, off: nat): nat {
    if off == 0 then 0 else After(entries, off)
  }

  lemma {:induction false} AfterBound(entries: seq<Dirent>, off: nat)
    ensures After(entries, off) <= |entries|
  {
    if entries != [] {
      AfterBound(entries[1..], off);
    }
  }

  lemma PositionBound(entries: seq<Dirent>, off: nat)
    ensures PositionOf(entries, off) <= |entries|
  {
    AfterBound(entries, off);
  }

  // ---- The buffer

  /** libfuse's layout of one entry, given whether attributes are included. */
  type Encoder = (bool, string, nat, nat) -> seq<Byte>

  /** `fuse_add_direntry`: the size the entry takes, and its bytes when they fit. */
  function FuseAddDirentry(encode: Encoder, plus: bool, room: nat, name: string, ino: nat, off: nat): (nat, seq<Byte>) {
    var bytes := encode(plus, name, ino, off);
    (|bytes|, if |bytes| <= room then bytes else [])
  }

  class FuseDirsBuilder {
    const plus: bool
    const maxsize: nat
    var buf: seq<Byte>

    ghost predicate Valid()
      reads this
    {
      |buf| <= maxsize
    }

    constructor (plus: bool, maxsize: nat)
      ensures this.plus == plus && this.maxsize == maxsize && buf == [] && Valid()
    {
      this.plus := plus;
      this.maxsize := maxsize;
      buf := [];
    }

    /** Asks for the size, then writes: an entry is added whole or not at all, and the
        source's CHECK that both calls agree never fails. */
    method AddDirEntry(encode: Encoder, name: string, ino: nat, off: nat) returns (added: bool)
      requires Valid()
      modifies this
      ensures Valid()
      ensures added <==> |old(buf)| + |encode(plus, name, ino, off)| <= maxsize
      ensures buf == if added then old(buf) + encode(plus, name, ino, off) else old(buf)
    {
      var query := FuseAddDirentry(encode, plus, 0, name, ino, off);
      var next := query.0;
      if next + |buf| > maxsize { return false; }
      var written := FuseAddDirentry(encode, plus, next, name, ino, off);
      assert written.0 == next;
      buf := buf + written.1;
      added := true;
    }

    /** The source CHECKs that the buffer is within bounds. */
    method Reply(req: FuseRequest, session: Session, rc: ReplyResult) returns (st: Status)
      requires Valid() && GoodLibc(session.libc)
      modifies req, session
      ensures req.req == None
      ensures session.log == old(session.log) + Sent(old(req.req), BufReply(buf), rc)
      ensures st == if old(req.req).None? then OK_STATUS else ErrnoToStatus(session.libc, 0 - rc)
      ensures st.Ok() <==> old(req.req).None? || rc == 0
    {
      st := req.Reply(session, BufReply(buf), rc);
      ErrnoStatusOk(session.libc, 0 - rc);
    }
  }

  /** The bytes of a page: the encodings of its entries, one after the other. */
  function PageBytes(encode: Encoder, plus: bool, page: seq<Dirent>, inos: seq<nat>): seq<Byte>
    requires |page| == |inos|
  {
    if page == [] then []
    else
      var last := |page| - 1;
      PageBytes(encode, plus, page[..last], inos[..last]) + encode(plus, page[last].name, inos[last], page[last].off)
  }

  // ---- Pages

  type Sizes = string -> nat

  /** How many of the entries go into a page: as many as fit, in order. */
  function PageLength(entries: seq<Dirent>, sizes: Sizes, room: nat): nat {
    if entries == [] || sizes(entries[0].name) > room then 0
    else 1 + PageLength(entries[1..], sizes, room - sizes(entries[0].name))
  }

  function PageSize(page: seq<Dirent>, sizes: Sizes): nat {
    if page == [] then 0 else PageSize(page[..|page| - 1], sizes) + sizes(page[|page| - 1].name)
  }

  lemma {:induction false} PageSizeFirst(page: seq<Dirent>, sizes: Sizes)
    requires page != []
    ensures PageSize(page, sizes) == sizes(page[0].name) + PageSize(page[1..], sizes)
  {
    if |page| > 1 {
      PageSizeFirst(page[..|page| - 1], sizes);
      assert page[1..][..|page| - 2] == page[..|page| - 1][1..];
    }
  }

  /** The length of a page by what a reader of the buffer sees: its entries fit, and
      with the next one they would not. */
  lemma {:induction false} PageLengthIs(entries: seq<Dirent>, sizes: Sizes, room: nat, n: nat)
    requires n <= |entries| && PageSize(entries[..n], sizes) <= room
    requires n < |entries| ==> PageSize(entries[..n], sizes) + sizes(entries[n].name) > room
    ensures PageLength(entries, sizes, room) == n
    decreases n
  {
    if n > 0 {
      PageSizeFirst(entries[..n], sizes);
      assert entries[..n][1..] == entries[1..][..n - 1];
      PageLengthIs(entries[1..], sizes, room - sizes(entries[0].name), n - 1);
    }
  }

  lemma {:induction false} PageLengthAtLeast(entries: seq<Dirent>, sizes: Sizes, room: nat, n: nat)
    requires n <= |entries| && PageSize(entries[..n], sizes) <= room
    ensures n <= PageLength(entries, sizes, room)
    decreases n
  {
    if n > 0 {
      PageSizeFirst(entries[..n], sizes);
      assert entries[..n][1..] == entries[1..][..n - 1];
      PageLengthAtLeast(entries[1..], sizes, room - sizes(entries[0].name), n - 1);
    }
  }

  lemma {:induction false} PageLengthBound(entries: seq<Dirent>, sizes: Sizes, room: nat)
    ensures PageLength(entries, sizes, room) <= |entries|
    decreases |entries|
  {
    if entries != [] && sizes(entries[0].name) <= room {
      PageLengthBound(entries[1..], sizes, room - sizes(entries[0].name));
    }
  }

  function Page(entries: seq<Dirent>, off: nat, sizes: Sizes, room: nat): seq<Dirent> {
    PositionBound(entries, off);
    PageLengthBound(entries[PositionOf(entries, off)..], sizes, room);
    entries[PositionOf(entries, off)..][..PageLength(entries[PositionOf(entries, off)..], sizes, room)]
  }

  lemma PageIsPrefix(entries: seq<Dirent>, off: nat, sizes: Sizes, room: nat)
    ensures PositionOf(entries, off) <= |entries|
    ensures Page(entries, off, sizes, room) <= entries[PositionOf(entries, off)..]
    ensures |Page(entries, off, sizes, room)| == PageLength(entries[PositionOf(entries, off)..], sizes, room)
  {
    PositionBound(entries, off);
    PageLengthBound(entries[PositionOf(entries, off)..], sizes, room);
  }

  /** A page is empty at the end of the directory - and when the next entry alone is
      too large, which the reader takes for the end. */
  lemma EmptyPage(entries: seq<Dirent>, off: nat, sizes: Sizes, room: nat)
    ensures PositionOf(entries, off) <= |entries|
    ensures Page(entries, off, sizes, room) == [] <==>
      (PositionOf(entries, off) == |entries| || sizes(entries[PositionOf(entries, off)].name) > room)
  {
    PageIsPrefix(entries, off, sizes, room);
  }

  // ---- Reading a whole directory

  ghost predicate DistinctCookies(entries: seq<Dirent>) {
    && (forall i | 0 <= i < |entries| :: entries[i].off != 0)
    && (forall i, j | 0 <= i < j < |entries| :: entries[i].off != entries[j].off)
  }

  lemma {:induction false} AfterEntry(entries: seq<Dirent>, i: nat)
    requires i < |entries| && forall j | 0 <= j < i :: entries[j].off != entries[i].off
    ensures After(entries, entries[i].off) == i + 1
  {
    if i > 0 {
      AfterEntry(entries[1..], i - 1);
    }
  }

  /** Where reading goes on: at the beginning for 0, behind the entry that has the cookie
      otherwise. */
  lemma PositionIs(entries: seq<Dirent>, off: nat, start: nat)
    requires DistinctCookies(entries)
    requires if off == 0 then start == 0 else 0 < start <= |entries| && entries[start - 1].off == off
    ensures PositionOf(entries, off) == start
  {
    if off != 0 {
      AfterEntry(entries, start - 1);
    }
  }

  /** The page that goes on there is what fits of the entries from there on. */
  lemma PageFrom(entries: seq<Dirent>, off: nat, start: nat, sizes: Sizes, room: nat)
    requires DistinctCookies(entries)
    requires if off == 0 then start == 0 else 0 < start <= |entries| && entries[start - 1].off == off
    ensures var page := Page(entries, off, sizes, room);
      && page <= entries[start..] && PageSize(page, sizes) <= room
      && (|page| < |entries| - start ==> PageSize(page, sizes) + sizes(entries[start + |page|].name) > room)
  {
    PositionIs(entries, off, start);
    PageIsPrefix(entries, off, sizes, room);
    PageIsFull(entries[start..], sizes, room);
  }

  lemma {:induction false} PageIsFull(entries: seq<Dirent>, sizes: Sizes, room: nat)
    ensures var n := PageLength(entries, sizes, room);
      && n <= |entries| && PageSize(entries[..n], sizes) <= room
      && (n < |entries| ==> PageSize(entries[..n], sizes) + sizes(entries[n].name) > room)
    decreases |entries|
  {
    if entries != [] && sizes(entries[0].name) <= room {
      var n := PageLength(entries, sizes, room);
      PageIsFull(entries[1..], sizes, room - sizes(entries[0].name));
      PageSizeFirst(entries[..n], sizes);
      assert entries[..n][1..] == entries[1..][..n - 1];
    }
  }

  /** Going on from the last entry of a page leads to just after the page, whatever the
      stream had already read beyond it. */
  lemma NextPagePosition(entries: seq<Dirent>, off: nat, page: seq<Dirent>)
    requires DistinctCookies(entries) && page != [] && PositionOf(entries, off) <= |entries|
    requires page <= entries[PositionOf(entries, off)..]
    ensures PositionOf(entries, page[|page| - 1].off) == PositionOf(entries, off) + |page| <= |entries|
  {
    var i := PositionOf(entries, off) + |page| - 1;
    assert page[|page| - 1] == entries[i];
    AfterEntry(entries, i);
  }

  /** The kernel's loop: ask for a page, go on from its last cookie, stop at an empty
      page.  Page sizes may differ from call to call. */
  ghost function ListAll(entries: seq<Dirent>, off: nat, sizes: Sizes, rooms: nat -> nat, call: nat): seq<Dirent>
    requires DistinctCookies(entries)
    decreases |entries| - PositionOf(entries, off)
  {
    var page := Page(entries, off, sizes, rooms(call));
    if page == [] then []
    else
      PageIsPrefix(entries, off, sizes, rooms(call));
      NextPagePosition(entries, off, page);
      page + ListAll(entries, page[|page| - 1].off, sizes, rooms, call + 1)
  }

  /** The same loop without streams and cookies: cut pages off what is left. */
  function Pages(rest: seq<Dirent>, sizes: Sizes, rooms: nat -> nat, call: nat): seq<Dirent>
    decreases |rest|
  {
    PageLengthBound(rest, sizes, rooms(call));
    var n := PageLength(rest, sizes, rooms(call));
    if n == 0 then [] else rest[..n] + Pages(rest[n..], sizes, rooms, call + 1)
  }

  /** No entry is lost or repeated between pages: going on from the last cookie is
      going on after the page. */
  lemma {:induction false} ListAllIsPages(entries: seq<Dirent>, off: nat, sizes: Sizes, rooms: nat -> nat, call: nat)
    requires DistinctCookies(entries)
    ensures PositionOf(entries, off) <= |entries|
    ensures ListAll(entries, off, sizes, rooms, call) == Pages(entries[PositionOf(entries, off)..], sizes, rooms, call)
    decreases |entries| - PositionOf(entries, off)
  {
    PageIsPrefix(entries, off, sizes, rooms(call));
    var page := Page(entries, off, sizes, rooms(call));
    ListAllStep(entries, off, sizes, rooms, call);
    if page != [] {
      NextPagePosition(entries, off, page);
      var next, rest := page[|page| - 1].off, entries[PositionOf(entries, off)..];
      ListAllIsPages(entries, next, sizes, rooms, call + 1);
      assert entries[PositionOf(entries, next)..] == rest[|page|..];
      PagesStep(rest, sizes, rooms, call, page);
    }
  }

  lemma ListAllStep(entries: seq<Dirent>, off: nat, sizes: Sizes, rooms: nat -> nat, call: nat)
    requires DistinctCookies(entries)
    ensures var page := Page(entries, off, sizes, rooms(call));
      ListAll(entries, off, sizes, rooms, call) ==
      if page == [] then [] else page + ListAll(entries, page[|page| - 1].off, sizes, rooms, call + 1)
  {}

  lemma PagesStep(rest: seq<Dirent>, sizes: Sizes, rooms: nat -> nat, call: nat, page: seq<Dirent>)
    requires page != [] && page <= rest && |page| == PageLength(rest, sizes, rooms(call))
    ensures Pages(rest, sizes, rooms, call) == page + Pages(rest[|page|..], sizes, rooms, call + 1)
  {}

  lemma {:induction false} PagesAreComplete(rest: seq<Dirent>, sizes: Sizes, rooms: nat -> nat, call: nat)
    requires forall i, c: nat | 0 <= i < |rest| :: sizes(rest[i].name) <= rooms(c)
    ensures Pages(rest, sizes, rooms, call) == rest
    decreases |rest|
  {
    PageLengthBound(rest, sizes, rooms(call));
    var n := PageLength(rest, sizes, rooms(call));
    if rest != [] {
      assert n > 0;
      PagesAreComplete(rest[n..], sizes, rooms, call + 1);
    }
  }

  /** Paging refines a plain listing: when every page has room for any one entry, the
      pages are exactly the remaining entries, in order, none lost or repeated. */
  lemma PagingIsListing(entries: seq<Dirent>, off: nat, start: nat, sizes: Sizes, rooms: nat -> nat, call: nat)
    requires DistinctCookies(entries)
    requires if off == 0 then start == 0 else 0 < start <= |entries| && entries[start - 1].off == off
    requires forall i, c: nat | start <= i < |entries| :: sizes(entries[i].name) <= rooms(c)
    ensures ListAll(entries, off, sizes, rooms, call) == entries[start..]
  {
    PositionIs(entries, off, start);
    ListAllIsPages(entries, off, sizes, rooms, call);
    PagesAreComplete(entries[start..], sizes, rooms, call);
  }

  /** The entries up to the first one that does not fit into an empty page. */
  function UpToOversize(entries: seq<Dirent>, sizes: Sizes, room: nat): nat {
    if entries == [] || sizes(entries[0].name) > room then 0 else 1 + UpToOversize(entries[1..], sizes, room)
  }

  lemma {:induction false} UpToOversizeSplits(entries: seq<Dirent>, sizes: Sizes, room: nat, n: nat)
    requires n <= |entries| && forall i | 0 <= i < n :: sizes(entries[i].name) <= room
    ensures UpToOversize(entries, sizes, room) == n + UpToOversize(entries[n..], sizes, room)
    ensures UpToOversize(entries, sizes, room) <= |entries|
    ensures UpToOversize(entries, sizes, room) == |entries| <==>
      forall i | 0 <= i < |entries| :: sizes(entries[i].name) <= room
    decreases |entries|
  {
    if n > 0 {
      UpToOversizeSplits(entries[1..], sizes, room, n - 1);
      assert entries[1..][n - 1..] == entries[n..];
    } else if entries != [] && sizes(entries[0].name) <= room {
      UpToOversizeSplits(entries[1..], sizes, room, 0);
      assert entries[1..][0..] == entries[1..];
    }
    if entries != [] && sizes(entries[0].name) <= room {
      assert forall i | 0 <= i < |entries| - 1 :: entries[1..][i] == entries[i + 1];
    }
  }

  lemma {:induction false} PageFits(entries: seq<Dirent>, sizes: Sizes, room: nat)
    ensures PageLength(entries, sizes, room) <= |entries|
    ensures forall i | 0 <= i < PageLength(entries, sizes, room) :: sizes(entries[i].name) <= room
    decreases |entries|
  {
    if entries != [] && sizes(entries[0].name) <= room {
      PageFits(entries[1..], sizes, room - sizes(entries[0].name));
      assert forall i | 0 < i < |entries| :: entries[1..][i - 1] == entries[i];
    }
  }

  /** A page takes only entries that fit an empty one, so what is left splits the same way. */
  lemma PageThenRest(rest: seq<Dirent>, sizes: Sizes, room: nat, n: nat)
    requires n == PageLength(rest, sizes, room)
    ensures n <= |rest|
    ensures UpToOversize(rest[n..], sizes, room) <= |rest| - n
    ensures UpToOversize(rest, sizes, room) == n + UpToOversize(rest[n..], sizes, room)
    ensures rest[..UpToOversize(rest, sizes, room)] == rest[..n] + rest[n..][..UpToOversize(rest[n..], sizes, room)]
  {
    PageFits(rest, sizes, room);
    UpToOversizeSplits(rest, sizes, room, n);
  }

  /** Pages of one size end before the first entry that does not fit an empty page. */
  lemma {:induction false} PagesStopAtOversize(rest: seq<Dirent>, sizes: Sizes, room: nat, rooms: nat -> nat, call: nat)
    requires forall c: nat :: rooms(c) == room
    ensures UpToOversize(rest, sizes, room) <= |rest|
    ensures Pages(rest, sizes, rooms, call) == rest[..UpToOversize(rest, sizes, room)]
    decreases |rest|
  {
    var n := PageLength(rest, sizes, room);
    PageThenRest(rest, sizes, room, n);
    if n > 0 {
      PagesStopAtOversize(rest[n..], sizes, room, rooms, call + 1);
    }
  }

  lemma FitIffComplete(rest: seq<Dirent>, sizes: Sizes, room: nat)
    ensures UpToOversize(rest, sizes, room) <= |rest|
    ensures rest[..UpToOversize(rest, sizes, room)] == rest <==>
      forall i | 0 <= i < |rest| :: sizes(rest[i].name) <= room
  {
    UpToOversizeSplits(rest, sizes, room, 0);
  }

  /** So they give the whole directory exactly when every remaining entry fits an empty
      page; otherwise the reader takes a truncated listing for all of it. */
  lemma CompleteIffAllFit(entries: seq<Dirent>, off: nat, start: nat, sizes: Sizes, room: nat, rooms: nat -> nat,
                          call: nat)
    requires DistinctCookies(entries) && forall c: nat :: rooms(c) == room
    requires if off == 0 then start == 0 else 0 < start <= |entries| && entries[start - 1].off == off
    ensures var rest := entries[start..];
      && UpToOversize(rest, sizes, room) <= |rest|
      && ListAll(entries, off, sizes, rooms, call) == rest[..UpToOversize(rest, sizes, room)]
      && (ListAll(entries, off, sizes, rooms, call) == rest <==>
          forall i | 0 <= i < |rest| :: sizes(rest[i].name) <= room)
  {
    PositionIs(entries, off, start);
    ListAllIsPages(entries, off, sizes, rooms, call);
    var rest := entries[start..];
    PagesStopAtOversize(rest, sizes, room, rooms, call);
    FitIffComplete(rest, sizes, room);
  }
}
