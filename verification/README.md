# PAFS: the reference protocol between the server and the kernel

PAFS hands the kernel the addresses of its `Inode` objects as node ids, and every
later request dereferences one. This project models the code that keeps those
addresses alive, and the code it rests on, and proves that it works.

The layers, from the bottom up:

- `Errno.dfy`, `Status.dfy`: how an errno travels as text inside a status and comes
  out again as the errno of a reply. `ErrnoTable.dfy` writes the numbers down a second
  time.
- `Ownership.dfy`, `FileDescriptor.dfy`, `PollHandle.dfy`: move-by-swap ownership.
  `Ownership` treats programs over a pool of owners as values; `FileDescriptor` is the
  class, and `Run` ties programs over real objects to the pool.
- `FuseRequest.dfy`: the request as a token that is completed once, and the three kinds
  of callback wrapper. libfuse's side is a log of completions.
- `Listing.dfy`: the bounded buffer of directory entries, and what pages read one after
  the other add up to.
- `RefCounts.dfy`: the count arithmetic of `InodeCache` on values, generic in what a
  node is. Both of the following layers are proved against it.
- `InodeCache.dfy`, `PageAlignFS.dfy`: the cache as a class over a map of counted
  objects, and the handlers that move references, statement by statement, for one
  request at a time.
- `ReadDirectory.dfy`: a reader that calls the listing handler until a page is empty.
- `Protocol.dfy` and the `Protocol*.dfy` files: the same handlers as a step machine with
  any number of requests in flight. Each cache operation, system call and reply is one
  step, each of them may fail, and the kernel acts between any two. Addresses and
  descriptor numbers are reused as soon as they are free; a birth stamp that no run uses
  twice tells an inode from another that later lives at its address. An access to an inode that is
  gone, a missing cache entry, a failed CHECK, a foreign close and a wrapping count are
  outcomes of a step, and the results say which of them can occur in a run from start-up.
  `ProtocolAlone.dfy` ties the steps back to the contracts of `PageAlignFS.dfy`,
  `ProtocolFiles.dfy` says which file handles the kernel gets, and `ProtocolExamples.dfy`
  holds runs in which requests succeed.

What the environment decides is a parameter or a choice of the step: the results of
system calls and replies, addresses and descriptor numbers, the names `strerrorname_np`
knows, absl's status code of an errno, and libfuse's bytes of an entry.

Assumed throughout:

- The kernel names only the root and ids it holds lookups on. It forgets no more than it
  holds, never the root, and never the last lookup of an id that an unanswered request
  names or that a file is open on. A request that has been answered protects nothing,
  even while its handler is still running.
- A cache operation is atomic. `InodeCache` has no lock, and `pafs/main.cc:104-116` may
  run the multi-threaded loop.

The server takes a reference for every entry of an accepted `ReadDirPlus` reply. Which of
them the kernel counts, and so can give back, is left to the kernel.

Things the proofs brought to light, each stated by a member below:

- `WriteBuf` replies and then reads its inode again, for the poll handle. Under the
  multi-threaded loop the file can be released and forgotten in between, and the inode
  is gone (`LateForgetDangles`). That is the only way in which any run dereferences an
  inode that is gone (`WhenRunsFault`, `DanglingIsStale`), and such a write never returns
  (`LostWriteNeverReturns`). It cannot happen under the
  single-threaded loop (`SingleThreadedRunsAreSafe`), nor when the kernel waits with the
  last forget until the handler has returned (`PatientRunsAreSafe`), and no other handler
  needs either condition (`OtherHandlersAreSafe`).
- References for entries of a `ReadDirPlus` reply that the kernel does not count, as is
  the case for `.` and `..`, are never given back. When everything else has been, the
  cache is empty exactly if the kernel counted every entry (`EmptyIffCountedInFull`).
- Many errnos have no entry in the errno table, ELOOP, EBADMSG and EIO among them. They
  reach the kernel as the fallback of their status code, which `ErrnoFidelity` makes
  exact; EIO, for example, arrives as EPROTO where absl has no code of its own for it
  (`EioIsReportedAsEproto`).
- `ReadDirPlus` makes no device check. One mount point in a listed directory gives the
  kernel a node on another device (`ReadDirPlusLeavesDevice`); without `ReadDirPlus` it
  never gets one (`WithoutReadDirPlusClosed`).
- An entry larger than the whole buffer gives an empty page, which the reader takes for
  the end of the directory (`EmptyPage`, `CompleteIffAllFit`).
- A successful `SetLk` is answered with ECOMM (`SilentSuccessAnswered`).

## Model

| member | source | states |
|---|---|---|
| `ProtocolRuns.WhenRunsFault` | pafs/page_align_fs.cc:60-718 | A run from start-up, with any interleaving of requests, failures and forgets, dereferences an inode that is gone if and only if a `WriteBuf` that has already replied reads its inode when that is gone. Apart from that no run misses a cache entry, fails the CHECK in `Unref` or closes a descriptor the closer does not own; it stops only at a count about to exceed 64 bits, after a state with 2^64 - 1 references to one inode. |
| `ProtocolSafety.StepSafe` | pafs/inode.cc:52-106 | One step from any state that satisfies the invariant either keeps the invariant, is not possible there, wraps a count that stands at 2^64 - 1, or is such a late read, and then it does fault. |
| `ProtocolWrites.DanglingIsStale` | pafs/page_align_fs.cc:346-349 | Step by step: a step dereferences what is gone exactly when it is the read of an answered `WriteBuf` whose inode is gone. |
| `ProtocolWrites.GoneStaysGone` | pafs/inode.cc:100-103 | An inode that has been destroyed does not come back in any step, although its address, its key and its descriptor number may. |
| `ProtocolWrites.LostWriteNeverReturns` | pafs/page_align_fs.cc:346-349 | Once the inode of an answered `WriteBuf` is gone, no run lets that write return: it is still waiting to read the inode, and the inode is still gone. |
| `ProtocolWrites.PatientRunsAreSafe` | pafs/page_align_fs.cc:333-350 | If the kernel never forgets the last lookup of an id before the writes to it have returned, no run from start-up faults before a count reaches its limit. |
| `ProtocolWrites.SingleThreadedRunsAreSafe` | pafs/main.cc:104-116 | The same for every run of the single-threaded loop, which takes a request only when the last handler has returned, whatever the kernel forgets. |
| `ProtocolWrites.OtherHandlersAreSafe` | pafs/page_align_fs.cc:583-718 | The same for every run without `WriteBuf`, under any interleaving and whatever the kernel forgets. |
| `ProtocolWrites.LateForgetDangles` | pafs/page_align_fs.cc:346-349 | A run of nineteen steps from start-up - look up, open, write, reply, release, forget - in which the write then dereferences the erased inode. |
| `ProtocolAlone.AloneShifts` | pafs/page_align_fs.cc:583-718 | The steps of any request but a forget, run from arrival to end while nothing else moves, change the cache by exactly one reference for each entry the kernel took, counted or not: the balance that the contracts of `ReplyWithEntry` and `ReadDirInternal` promise. |
| `ProtocolAlone.LookupAlone` | pafs/page_align_fs.cc:692-718 | For all of these but `ReadDirPlus`: the kernel took one entry and its inode has one reference more, or cache and lookups are as they were; a plain listing is always the latter. |
| `ProtocolAlone.ForgetAlone` | pafs/page_align_fs.cc:197-205 | The steps of a forget leave the cache that the contract of `ForgetMulti` names. |
| `ProtocolFiles.CreateAlone` | pafs/page_align_fs.cc:450-469 | A `Create` run alone either leaves lookups, handles and cache as they were, or there are one node and one new descriptor such that the kernel has one lookup more on the node and a handle that is open on that same node, and the cache one reference more to its inode. |
| `ProtocolFiles.OpenAlone` | pafs/page_align_fs.cc:293-311 | An `Open` run alone gives no lookup, and at most one new handle, which is open on the id it was asked for. |
| `ProtocolFiles.OthersGiveNoHandle` | pafs/page_align_fs.cc:313-318 | No other request gives a handle, and `Release` takes back exactly the one it is for. |
| `ProtocolExamples.CreateThenWrite` | pafs/page_align_fs.cc:450-469 | A concrete run from start-up: create a file, then write to its handle. The kernel ends with one lookup and a handle on the new inode, whose count is 1, and the write is a write to that inode. |
| `ProtocolExamples.MakeGivesNode` | pafs/page_align_fs.cc:207-291 | A request whose own call succeeds and which then looks its new name up, as `Mkdir`, `Mknod`, `Symlink` and `Link` do, leaves the state that a lookup leaves, and the kernel can open the node. |
| `ProtocolExamples.PlainListingLeavesNothing` | pafs/page_align_fs.cc:583-626 | A plain listing of one entry that nothing else refers to succeeds and leaves the state it found; the inode it met is erased and its descriptor closed. |
| `ProtocolExamples.OwnDescriptorIsClosed` | pafs/page_align_fs.cc:352-361 | A handler that opens a descriptor of its own closes it on its way out. |
| `ProtocolRuns.CountsEqualReferences` | pafs/inode.cc:52-106 | In every reachable state the count of a cached key is the shared pointers held by running handlers, plus grants taken and not settled, plus references a forget has yet to return, plus lookups the kernel holds, plus references it was given and does not count; a key is cached exactly when that sum is positive. |
| `ProtocolRuns.NoDanglingId` | pafs/page_align_fs.cc:638-641 | In every reachable state each id the kernel may name, each id with an open file, each pointer held by a handler and each id named by an unanswered request is a live inode. |
| `ProtocolRuns.StepKeepsObjects` | pafs/inode.cc:54-66 | No step changes a live inode or the inode of a key that stays cached. |
| `ProtocolRuns.RunMoves` | pafs/page_align_fs.cc:663-718 | A step of one request moves no other request, and gives the kernel lookups or handles only when it is an accepted reply. |
| `ProtocolRuns.HeldIdKeepsMeaning` | pafs/page_align_fs.cc:638-641 | While the kernel holds an id, it stands for one and the same inode, although addresses are reused. |
| `ProtocolRuns.CachedKeyKeepsObject` | pafs/inode.h:69-76 | While a key stays cached, every insert of it finds the same object. |
| `ProtocolRuns.DescriptorsConserved` | pafs/page_align_fs.cc:293-318 | In every reachable state each open descriptor of an inode, of a file handle, or of a handler's own - for a generation, for `SetAttr`, for `Flush` - belongs to exactly one of the root, a cached inode, an unreleased handle and a running handler, and each of these holds exactly the descriptors it should. |
| `ProtocolQuiescence.QuiescentIsClean` | pafs/inode.cc:90-106 | When all handlers have finished, no file is open and the kernel holds no lookup, exactly the inodes given to the kernel and not counted by it are cached, with as many references as were given, and only their descriptors and the root's are open. |
| `ProtocolQuiescence.EmptyIffCountedInFull` | pafs/page_align_fs.cc:615-624 | Whenever a run from start-up has given everything back, the cache is empty if and only if the kernel counted every entry of every listing it took. |
| `ProtocolQuiescence.EmptyWithoutReadDirPlus` | pafs/page_align_fs.cc:197-205 | Without `ReadDirPlus` requests it is empty in any case, and only the root's descriptor is open. |
| `ProtocolQuiescence.ExitStep` | pafs/page_align_fs.cc:583-718 | A request that is not finished can always take a step that succeeds and brings it nearer to its end, below the count limit and unless it is a late read of an inode that is gone. |
| `ProtocolQuiescence.CanBeGivenBackIffFresh` | pafs/page_align_fs.cc:197-205 | From a reachable state below the count limit there is a continuation in which the handlers finish, the files are released and the kernel forgets all it counts, if and only if no answered `WriteBuf` has lost its inode. |
| `ProtocolQuiescence.EverythingCanBeGivenBack` | pafs/page_align_fs.cc:197-205 | That continuation, constructed: it leaves exactly the inodes the kernel was given and does not count. |
| `ProtocolDevices.StepKeepsClosed` | pafs/page_align_fs.cc:669-701 | If all nodes the kernel holds are on the root's device, a step ends that exactly when the kernel takes a listing and counts a node of another device in it. |
| `ProtocolDevices.RunKeepsClosed` | pafs/page_align_fs.cc:697-701 | A run in which the kernel takes no such listing keeps it on the root's device. |
| `ProtocolDevices.WithoutReadDirPlusClosed` | pafs/page_align_fs.cc:669-673 | A run from start-up without `ReadDirPlus` requests never gives the kernel a node of another device. |
| `ProtocolDevices.ReadDirPlusLeavesDevice` | pafs/page_align_fs.cc:604-620 | One `ReadDirPlus` over a mount point does: a concrete run of eight steps. |
| `RefCounts.InsertAddsOne` | pafs/inode.cc:52-72 | If the cache stands for a multiset of keys, `Insert` adds the key once and replaces no node. |
| `RefCounts.RefAdds` | pafs/inode.cc:74-88 | `Ref` adds the key `ntimes`, or finds no entry exactly when nothing refers to the key. |
| `RefCounts.UnrefSubtracts` | pafs/inode.cc:90-106 | `Unref` takes the key away `ntimes` and erases exactly exhausted keys; it finds no entry, or fails its CHECK, exactly when there is no reference, or fewer than asked for. |
| `RefCounts.ShiftUnref` | pafs/inode.cc:68-71 | Dropping a handle of a running handler never underflows, and erases the key exactly when neither the handler nor the starting state refers to it. |
| `RefCounts.ShiftedByNothing` | pafs/page_align_fs.cc:592-625 | A handler whose references balance out left the same keys, counts and nodes as it found. |
| `RefCounts.ForgetAllSubtracts` | pafs/page_align_fs.cc:197-205 | A batch within what the kernel holds takes exactly its totals per inode and erases exactly the exhausted ones. |
| `RefCounts.CoveredConcat` | pafs/page_align_fs.cc:197-205 | Such a batch may be split into batches anywhere. |
| `RefCounts.ForgetAllPermutes` | pafs/page_align_fs.cc:197-205 | Every permutation of such a batch leaves the same cache. |
| `InodeCaches.InodeCache.Insert` | pafs/inode.cc:52-72 | The cached inode of the key is returned with one reference more; the argument is taken over, or closed when the key was cached already. |
| `InodeCaches.InodeCache.Ref` | pafs/inode.cc:74-88 | The map changes as `RefCounts.Ref` says, or not at all when there is no entry. |
| `InodeCaches.InodeCache.Unref` | pafs/inode.cc:90-106 | The map changes as `RefCounts.Unref` says; the last reference closes the inode's descriptor, once. |
| `PageAlignFileSystem.CreateInode` | pafs/inode.cc:112-122 | The new inode owns the opened descriptor; a failing stat closes it. |
| `PageAlignFileSystem.PageAlignFS.GetInode` | pafs/page_align_fs.cc:638-641 | The root for the root's id, otherwise the object the id points to, which must be live. |
| `PageAlignFileSystem.PageAlignFS.FindOrCreateInode` | pafs/page_align_fs.cc:643-647 | The cached inode of the child's key with one reference more; a failure leaves the cache alone; exactly the descriptors no cached inode took over are closed. |
| `PageAlignFileSystem.CreateFuseEntryParam` | pafs/page_align_fs.cc:649-661 | Filling in an entry's parameters closes the descriptor it opened for the generation, whether it fails or not. |
| `PageAlignFileSystem.PageAlignFS.GrantAndReply` | pafs/page_align_fs.cc:707-717 | Of the two references, the handle's goes in any case, and the kernel's remains exactly when the reply reports success - that is, when it was taken, or when the request was no longer pending and nothing was sent. |
| `PageAlignFileSystem.PageAlignFS.ReplyWithEntry` | pafs/page_align_fs.cc:663-718 | Every failure - open, stat, device, description, reply - leaves the cache as it was and is the status returned, the first that occurs in that order; success adds one reference to the child. Says what is sent, and which descriptors are opened, and closed in which order, the generation's included. |
| `PageAlignFileSystem.PageAlignFS.Lookup` | pafs/fuse_ops.h:499-507 | Through its wrapper: exactly one completion, given outright. When the child resolves, on the parent's device, and can be described, it is the entry with the cached inode's address; otherwise it is the errno of what went wrong, EBUSY for another device. One reference more exactly when an entry was accepted, and every descriptor opened is closed or held by a cached inode. |
| `PageAlignFileSystem.PageAlignFS.Create` | pafs/page_align_fs.cc:450-469 | The same for a create reply, with the failure to open the file before the others; the opened file stays open exactly when the reply was accepted. Says which descriptors are opened and which are closed, in order. |
| `PageAlignFileSystem.PageAlignFS.Forget` | pafs/page_align_fs.cc:60-65 | Takes the count from the inode, and cannot fail when the kernel holds as much. The inode's descriptor is closed, once, exactly when the count was all there was. |
| `PageAlignFileSystem.PageAlignFS.ForgetMulti` | pafs/page_align_fs.cc:197-205 | Equals the single forgets in order, and never meets an inode that was erased earlier in the batch. The descriptors closed are exactly those of the erased inodes, in the order of erasure, and closed and held together are what they were. |
| `PageAlignFileSystem.PageAlignFS.VisitEntry` | pafs/page_align_fs.cc:599-621 | One iteration of the listing loop leaves two references for a placed entry of `ReadDirPlus` and none otherwise; the entry is in the buffer whole or not at all. |
| `PageAlignFileSystem.PageAlignFS.FillPage` | pafs/page_align_fs.cc:597-621 | The loop: the buffer holds the encodings of a run of consecutive entries with the nodes their names resolve to, and ends only where nothing more fits, at the end of the stream, or at a failure. |
| `PageAlignFileSystem.PageAlignFS.Unwind` | pafs/page_align_fs.cc:590-596 | Scope exit restores the cache, or leaves one reference per entry when the guard was cancelled. |
| `PageAlignFileSystem.PageAlignFS.ReadDirInternal` | pafs/page_align_fs.cc:583-626 | Transactional: without `plus`, and on every failure, the cache is as it was and every descriptor opened has been closed; a page taken with `plus` adds one reference per entry on it, several names of one inode counted separately, and every descriptor opened is closed or held by a cached inode. The status is that of the first read, resolution or description that fails at the entry where the listing stops. The bytes sent are those of the longest run of entries from the cookie on that fits, with the nodes their names resolve to. |
| `PageAlignFileSystem.PageAlignFS.ReadDir` | pafs/fuse_ops.h:1012-1020 | Through its wrapper: one completion, which is that page exactly when nothing on it goes wrong, and always when nothing goes wrong in the whole directory; otherwise the errno of what the listing stopped at, behind entries that all resolved. References only for the nodes of a page that the kernel accepted from `ReadDirPlus`, and every descriptor opened is closed or held by a cached inode. |
| `DirectoryReading.ReadWhole` | pafs/page_align_fs.cc:583-626 | A reader that calls the handler again and again from the last cookie, until a page is empty: when nothing goes wrong and every page has room for any one entry, even if an entry that is met twice resolves differently each time, the bytes sent in all are those of exactly the entries behind the first cookie - all of them, from the first entry on, when it is 0 - in order, none lost or repeated, and `ReadDirPlus` has left one reference for each, `ReadDir` none. |
| `PageAlignFileSystem.FilledIsPage` | pafs/page_align_fs.cc:597-621 | Where the loop stops is where the page ends, and it stops with success exactly when nothing on the page or at the entry behind it goes wrong. |
| `Listings.DirStream.Seekdir` | pafs/syscalls.cc:161-164 | Offset 0 is the beginning; with distinct cookies the cookie of an entry leads to just behind it. |
| `Listings.PositionIs` | pafs/syscalls.cc:161-164 | Where a stream stands after `seekdir`: at the first entry for 0, and otherwise, with distinct cookies, behind the entry that has the cookie. |
| `Listings.PageFrom` | pafs/page_align_fs.cc:590-613 | The page from there on is a run of the entries from that one on, which fits and would not with one more; from 0 it begins with the first entry of the directory. |
| `Listings.DirStream.Readdir` | pafs/syscalls.cc:148-153 | The next entry, consumed, or nothing at the end. |
| `Listings.FuseDirsBuilder.AddDirEntry` | pafs/fuse.cc:71-98 | The size query and the write agree: an entry is appended whole when it fits and otherwise nothing changes; the buffer never exceeds its maximum. |
| `Listings.FuseDirsBuilder.Reply` | pafs/fuse.cc:100-103 | The buffer is what is sent. |
| `Listings.PageLengthIs` | pafs/fuse.cc:89-95 | The page is the only run of entries that fits and would not with one more. |
| `Listings.EmptyPage` | pafs/fuse.cc:89-91 | A page is empty exactly at the end of the directory or when the next entry alone is too large. |
| `Listings.NextPagePosition` | pafs/page_align_fs.cc:590-613 | Going on from a page's last cookie leads to just behind the page, although the entry that did not fit had been read. |
| `Listings.PagingIsListing` | pafs/page_align_fs.cc:590-613 | With distinct cookies and room for any one entry, pages of any sizes add up to exactly the entries behind the cookie, and from 0 to all entries, in order, none lost or repeated. |
| `Listings.CompleteIffAllFit` | pafs/fuse.cc:89-91 | With pages of one size the listing ends before the first entry larger than a page, so it is complete exactly when there is none. |
| `FuseRequests.FuseRequest.Move` | pafs/fuse.cc:110-113 | The token moves, and the source is left empty. |
| `FuseRequests.FuseRequest.MoveAssign` | pafs/fuse.cc:115-119 | The two sides swap; self-assignment changes nothing. |
| `FuseRequests.FuseRequest.Reply` | pafs/fuse.cc:129-162 | A pending request is completed with this reply and is no longer pending; any other sends nothing and reports OK. |
| `FuseRequests.FuseRequest.ReplyNone` | pafs/fuse.cc:222-226 | The same for a completion without a reply. |
| `FuseRequests.FuseRequest.ReplyFailure` | pafs/fuse.cc:175-183 | A pending request is completed with the errno the status carries or falls back on. |
| `FuseRequests.FuseRequest.ReplyFailureAndLogIfNotOk` | pafs/fuse.cc:185-190 | Completes a pending request exactly when the status is a failure. |
| `FuseRequests.FuseRequest.ReplyAlwaysAndLogIfNotOk` | pafs/fuse.cc:164-173 | Completes a pending request in any case, with 0 for an OK status. |
| `FuseRequests.FuseRequest.Destroy` | pafs/fuse.cc:121-127 | Completes a request that is still pending with ECOMM. |
| `FuseRequests.Serve` | pafs/fuse_ops.h:499-1053 | For every operation, under the wrapper it has, and every handler behaviour - any replies with any results, then any status - the request is completed exactly once, and says with what; only when a pointer that the wrapper CHECKs is null does the server abort before. |
| `FuseRequests.OperationAnswered` | pafs/fuse_ops.h:499-1053 | By operation: a handler's first reply stands. If it sent none, a forget or a buffered write is not answered at all, whatever the status; any other operation is answered with the errno of a failed status; and success is answered with 0 for the operations listed and with ECOMM, 70, for the rest. |
| `FuseRequests.SystemErrorAnswered` | pafs/fuse.cc:175-190 | A system error that can be read back, returned by a silent handler of any operation but the forgets and `WriteBuf`, reaches the kernel as that errno. |
| `FuseRequests.FailureNeverAnsweredZero` | pafs/fuse.cc:175-190 | A handler that returns a system error without replying is never answered with success, under any wrapper. |
| `FuseRequests.SilentSuccessAnswered` | pafs/fuse_ops.h:885-893 | A handler that succeeds without replying is answered with 0, under the wrapper its operation has, except for `SetLk`, which is answered with ECOMM. |
| `FileDescriptors.FileDescriptor.Move` | pafs/fd.cc:29-31 | The descriptor moves, and the source is left with none. |
| `FileDescriptors.FileDescriptor.MoveAssign` | pafs/fd.cc:33-37 | The two sides swap; self-assignment changes nothing. |
| `FileDescriptors.FileDescriptor.Release` | pafs/fd.cc:23-27 | Hands the number out and keeps none. |
| `FileDescriptors.FileDescriptor.Destroy` | pafs/fd.cc:12-19 | Closes what it holds exactly once, although destructor and `close` call each other. |
| `FileDescriptors.Close` | pafs/syscalls.cc:23-29 | Closes the number once, and the argument's own destructor closes nothing. |
| `FileDescriptors.Run` | pafs/fd.cc:12-37 | Any program over real objects closes, releases and adopts exactly what the pool says. |
| `Ownership.ProgramConserves` | pafs/fd.cc:12-37 | Over any program, releases and adoptions included, every resource is held, disposed of or released as often as it was acquired. |
| `Ownership.OwnershipIsLinear` | pafs/fd.cc:29-37 | A resource acquired once is never held by two owners, and is disposed of at most once and never while it is held or released, however often it is released and adopted again. |
| `Ownership.AllDisposedAtEnd` | pafs/fuse.cc:110-127 | When all owners are gone and nothing is left released, everything acquired was disposed of, as often as it was acquired. |
| `Ownership.OneOwnerDespiteReuse` | pafs/fd.cc:12-37 | Even when closed numbers are handed out again and released ones adopted again, an open one has one owner or is released, and has been disposed of once for each earlier time it was acquired. |
| `Ownership.FileLifeClosesOnce` | pafs/page_align_fs.cc:293-318 | The life of an open file - owned by `Open`, released to the kernel as a number, adopted by `Release`, closed - disposes of it once. |
| `PollHandles.FusePollHandle.Destroy` | pafs/fuse.cc:298-302 | A handle is destroyed once; none is left. |
| `PollHandles.AddPollHandle` | pafs/inode.cc:136-139 | A null handle changes nothing; another replaces the kept one, which is destroyed. |
| `PollHandles.PollLife` | pafs/inode.cc:136-139 | Over any sequence of polls each handle is destroyed exactly once, in order of arrival, the last one with the inode. |
| `Errno.ParsePrintInt` | pafs/errno.cc:145-149 | Reading back a printed 32-bit number returns it, negative ones included. |
| `Errno.TableNamesAreNotUnknown` | pafs/errno.cc:145-151 | No name in the table can be taken for the unknown form. |
| `Errno.CodecRoundTrip` | pafs/errno.cc:11-17 | Printing and parsing returns the errno exactly when it prints as OK, as a name in the table or in the unknown form; otherwise the parser reports not found. |
| `Statuses.StatusKeepsErrno` | pafs/status.cc:33-47 | A failed call's status gives its errno back exactly in these cases. |
| `Statuses.ErrnoFidelity` | pafs/fuse.cc:175-183 | The errno reaches the kernel unchanged exactly when its text can be read back or the status code's fallback is the same errno; otherwise the fallback is sent. |
| `Statuses.FailureIsNeverZero` | pafs/fuse.cc:25-64 | No status of an errno, and no failed status without one, is reported to the kernel as 0. |
| `Statuses.EioIsReportedAsEproto` | pafs/errno.cc:19-157 | EIO is reported as EPROTO where the C library names it and absl maps it to the unknown code. |
| `ErrnoTables.PathErrnos` | pafs/errno.cc:19-157 | ENOENT, EEXIST and ENOTDIR are read as 2, 17 and 20, their Linux numbers. |
| `ErrnoTables.DirectoryErrnos` | pafs/errno.cc:19-157 | EISDIR, ENOTEMPTY, ENAMETOOLONG: 21, 39, 36. |
| `ErrnoTables.AccessErrnos` | pafs/errno.cc:19-157 | EPERM, EACCES, EROFS: 1, 13, 30. |
| `ErrnoTables.ResourceErrnos` | pafs/errno.cc:19-157 | ENOSPC, ENOMEM, EMFILE: 28, 12, 24. |
| `ErrnoTables.HandleErrnos` | pafs/errno.cc:19-157 | EBADF, ESTALE, EXDEV: 9, 116, 18. |
| `ErrnoTables.CallErrnos` | pafs/errno.cc:19-157 | EINVAL, EINTR, EAGAIN: 22, 4, 11. |
| `ErrnoTables.SupportErrnos` | pafs/errno.cc:19-157 | ENOSYS, ENOTSUP, EBUSY: 38, 95, 16. |
| `ErrnoTables.AttributeErrnos` | pafs/errno.cc:19-157 | ENODATA, ERANGE, ENOLCK: 61, 34, 37. |
| `ErrnoTables.MissingErrnos` | pafs/errno.cc:19-157 | EIO, ELOOP and EOPNOTSUPP are not in the table. |
| `ErrnoTables.UnknownForms` | pafs/errno.cc:11-17 | How 0 and an errno without a name, a negative one included, are printed. |
| `ErrnoTables.FallbackErrnos` | pafs/fuse.cc:25-64 | The errno, as a number, that a failing status without an errno of its own is answered with, for each code. |

## Left out

- Data races: cache operations are atomic steps; the map's memory layout appears only as object identity.
- Counts beyond 64 bits: the protocol stops with an outcome of its own, and the handlers of `PageAlignFS` require that their own additions do not wrap.
- ProtocolRuns.DescriptorsConserved: does not count directory streams. `OpenDir`, `ReleaseDir` and `Directory` are requests that only use their inode; `fdopendir` loses the descriptor when it fails, and `OpenDir` loses the stream when its reply fails.
- PageAlignFileSystem.PageAlignFS.ReadDirInternal: relies on entry sizes that depend on the name only, as libfuse's do.
- Listings.DirStream.Seekdir: a cookie that no entry has leads to the end, and the directory does not change while it is read.
- FuseRequests.Serve: leaves open which requests bring a null pointer. `GetFuseSetAttrOp` (`pafs/fuse_ops.h:540`) aborts on a `setattr` without a file handle.
- FileDescriptors.Run: whole programs are run over `FileDescriptor` objects. For `FuseRequest` and `FusePollHandle` only the single operations are tied to the objects; their moves have the same contracts.
- FuseRequests.FuseRequest.Reply: stands for all `Reply*` methods with a payload; the payloads of replies that move no reference (attributes, data, locks, poll events and the like) are not distinguished.
- FuseRequests.Serve: says that `SetLk` and `WriteBuf` are completed once, not that the reply is faithful; that `WriteBuf`'s wrapper never reports a failure is not judged.
- The error branch after `Ref` in the handlers: the entry is always there, which `RefNode` and `WhenRunsFault` prove.
- An inode's descriptor inside the cache is its number; moving it in and closing it are the `FileDescriptor` operations. Whether its generation is memoised is up to the environment, and its poll handle plays no part in the handlers.
- Pass-through handlers (`Read`, `FSync`, `StatFS`, extended attributes, locks, `FAllocate`, `CopyFileRange`, `LSeek`, `Rename`, `Unlink` and others): thin calls. In the protocol they are requests that name any number of ids, dereference them any number of times and may hold one descriptor of their own; `Mkdir`, `Mknod`, `Symlink` and `Link` then go on like a lookup, and `WriteBuf` has states of its own for its reply and what follows it.
- `SetAttr`'s dispatch over its mask, `Prepend` and `Append` (which lose the errno payload), `Mount`, `ScopedSignalMask`, `main`, logging and flags.
- libfuse and absl internals: the encoder, the status code of an errno and the C library's names are parameters with the properties stated where they are used.
