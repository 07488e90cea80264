# mytonstorage-gateway: a Dafny model

The gateway shows TON Storage bags to browsers. A bag is a flat list of slash-joined file names;
the gateway serves it as a directory tree, from the local daemon or over the network, unless a
moderator has banned it. This project models the parts of the gateway that hold algorithms or
shared state and proves what they promise.

Run `dafny verify dfyconfig.toml`.

## What is modelled

**Directory view.** `Text`, `DirectoryTree`, `Listing`, `ListingOrder`, `Browsing`: the scan of `ls`, with its string
prefixes, its set of folders already shown, its early exit and its unstable sort, against a real
directory tree built from the names. A bag is *well-formed* when its trimmed names are non-empty
lists of non-empty segments, none `.` or `..`, and no name is a segment-prefix of another (so all
are distinct). On such bags the scan is the sorted list of the tree node's children; two names
cannot swap places in it, so any sort and any order of the list give the same sequence.

**Paths and links.** `Paths`, `Requests`, `Links`: `filepath.Clean`, `Join` and `Dir` as a machine on a
stack of segments, `sanitizePath` on top, and the child and parent links of a listing page followed
back through the routes.

**File service.** `FileService`, `HeaderWait`, `ListingCache`: what is a file and what is a folder, the
fall-back from local to remote storage, the bounded wait for a bag's header, and the one-minute
listing cache.

**Moderation.** `SimpleCache`, `Blacklist`, `BanCache`, `Moderation`, `StaleAnswers`,
`UndisturbedRequests`: the timed map and its background sweep, the batch statement with its history
triggers, the ban cache, and a state machine in which requests, moderators, clock ticks and sweeps
interleave step by step, with what each of them does when nobody disturbs it.

**Remote bags.** `BagsCache`, `Recency`, `KeyedMutex`, `Hex`, `TorrentProtocol`, `Downloaders`, `Calls`, `TorrentClient`:
the timestamped cache with its eviction loop, its refinement of a recency list, one mutex per bag, and
`getTorrent` twice: as one caller runs it on the cache, the index and the table of mutexes, and as a
state machine in which any number of callers interleave.

**Streaming.** `Pieces`, `Streaming`: the writer that cuts a file out of pieces, the pipe, the metered
stream, and the copy loop with its buffer and deadline.

Objects the gateway updates in place are classes here (`SimpleCache`, `Repository`,
`CachedRepository`, `ListingCache`, `BagsCache`, `LockTable`, `VirtualStorage`, `Client`, `Pipe`,
`MeteredStream`), with methods proved against functions and predicates on values; the theorems about
runs are about those functions and predicates.

Clocks are natural numbers that never go back and remember what they were read as, in the unit of the constants beside them: seconds for
the two listing and ban caches, milliseconds for the header wait and the copy loop. What the daemon,
the database, the network and the client answer is a parameter.

## What the proofs brought out

- A folder whose only child is a file with the folder's own name is taken for that file: for the bag
  with the one file `a/a`, asked for `a`, the local branch sets a file path that names a directory
  (`FileService.FolderAnsweredAsFile`). `FileService.LocalAnswersFilesExactly` shows there is no other
  mistake.
- The remote branch accepts a file named by any suffix of the path, and streams the only child of a
  folder: `ab/b` for `ab` (`FileService.AbStreamedAsFile`). It is right exactly when no only child of
  the path is named by a suffix of the path (`FileService.RemoteAnswersFilesExactly`), and differs
  from the local branch exactly when that suffix is not the last segment
  (`FileService.SourcesAgreeExactly`).
- For bags with proper names, the order of the file list can show exactly when one file lies below
  another or a name is listed with two sizes (`ListingOrder.OrderShowsExactly`).
- Sanitising is not idempotent: `//` is accepted as `/`, and `/` becomes `.`
  (`Requests.SlashIsNotStable`); `Requests.SanitizeTwice` gives the exact condition.
- A file whose name ends in white space is listed and can be asked for, but the handler sanitises the
  path it is given before opening it and so opens another one (`FileService.SpacedNameIsNotOpened`);
  `FileService.ServedIsOpenedExactly` gives the exact condition.
- A child link is refused by the gateway that made it exactly when the joined path is over 4096 bytes
  (`Links.ChildLinkOpens`), as on the page of a folder with a name of 4096 characters
  (`Links.LongChildIsRefused`).
- A cached listing outlives a ban, for at most a minute and only if its own ban check came before the
  ban (`Moderation.BanIsEffective`); the minute is reached (`StaleAnswers.ListingOutlivesBan`).
- A refusal can outlive its ban: a request that read the ban and stores it only after the unban has
  been committed and released makes the cache refuse the free bag for up to an hour
  (`StaleAnswers.RefusalOutlivesBan`). Cached bans are current in exactly the runs without such a
  store (`Moderation.CachedBansAreCurrentExactly`).
- A torrent whose header did not load is stopped, but its downloader is left open for good
  (`Downloaders.HeaderMissingLeaks`): torrents are always conserved, downloaders in exactly the runs
  in which no header is missing (`Downloaders.ConservedExactly`).
- The piece loop counts in 32 bits: it never ends on a file that reaches the last possible piece
  (`Pieces.LoopEnds`).
- Two spellings of one bag id share the cache entry and the overlay but not the mutex. For any two
  there is a run that overwrites a running torrent (`Downloaders.SpellingsLoseATorrent`), so the
  creation protocol rests on the handler lowering its ids; its theorems are about lower-case runs.

## Model

| member | source | states |
|---|---|---|
| Text.LessTotal | pkg/services/files/service.go:316-324 | any two different names compare one way or the other |
| Text.LessTransitive | pkg/services/files/service.go:316-324 | the byte order on names is transitive |
| Text.LessExactly | pkg/services/files/service.go:316-324 | a name comes before another exactly when, at the first place where they part, it has ended or has the smaller character |
| Text.TrimCuts | pkg/services/files/service.go:257-263 | trimming gives a part of the string and takes away only characters of the cutset, from the two ends |
| Text.JoinSplit | pkg/services/files/service.go:266 | joining the segments of any string gives the string back |
| Text.SplitJoin | pkg/services/files/service.go:266 | splitting what was joined from slash-free segments gives the segments back |
| Text.PrefixIsSegmentPrefix | pkg/services/files/service.go:285 | a name starts with path + "/" exactly when the path's segments are a proper prefix of the name's segments |
| Text.BaseIsLastSegment | pkg/services/files/service.go:300 | `filepath.Base` of a name is its last segment |
| DirectoryTree.InsertLookup | pkg/services/files/service.go:256-327 | inserting a file changes what the tree holds at that path and above it, and nowhere else |
| DirectoryTree.BuildHolds | pkg/services/files/service.go:256-327 | the tree built from a well-formed bag holds exactly the bag's files, with their sizes, and the folders above them |
| Listing.BeforeTransitive | pkg/services/files/service.go:316-324 | the comparison given to the sort is transitive |
| Listing.BeforeTotal | pkg/services/files/service.go:316-324 | it orders any two entries of different name or kind |
| Listing.SortSlice | pkg/services/files/service.go:316-324 | the result is a sorted rearrangement of the list |
| Listing.ListingUnique | pkg/services/files/service.go:316-324 | two strictly sorted listings of the same entries are the same sequence: the unstable sort cannot show |
| Listing.VisitMeaning | pkg/services/files/service.go:262-314 | the string tests on one name decide exactly where the name's segments stand to the path's: below it directly, below it deeper, at it, or elsewhere |
| Listing.ScanLists | pkg/services/files/service.go:262-314 | the scan lists an entry exactly when a file or folder of that name stands directly below the path and was not listed before |
| Listing.ScanKeysDistinct | pkg/services/files/service.go:260-281 | each folder is listed once, and no name twice as the same kind |
| Listing.ScanAtFile | pkg/services/files/service.go:305-313 | for the path of a file the scan gives that one file, wherever it stands in the list |
| Listing.ScanShowsTree | pkg/services/files/service.go:256-327 | for a well-formed bag, every sorted arrangement of the scan is the directory tree's node: its children sorted, the file itself, or nothing when the path is absent |
| Listing.LsLoop | pkg/services/files/service.go:262-314 | the loop with its folder marks and its early exit appends exactly the specified scan |
| Listing.Ls | pkg/services/files/service.go:256-327 | `ls` returns a sorted arrangement of the scan: folders before files, and names ascending within each kind; for well-formed bags it is the tree node's listing, and holds, once each, the files directly below the path or at it with their sizes, and the folders that deeper files lie in |
| Browsing.ListingIgnoresOrder | pkg/services/files/service.go:262-324 | for a well-formed bag any permutation of the file list, and any sort, gives the identical sequence |
| Browsing.ListingDependsOnOrder | pkg/services/files/service.go:305-313 | with files at a and a/b the early exit hides the second exactly when it comes second |
| ListingOrder.OrderShowsExactly | pkg/services/files/service.go:262-324 | for a bag with proper names, any two results of `ls` for one path agree whatever the list's order and the sort, if and only if no file lies below another and no name is listed with two sizes |
| Browsing.WalkCount | pkg/services/files/service.go:256-327 | opening folders below a path meets each file once if the path is above it, and no other |
| Browsing.WalkMeetsEveryFileOnce | pkg/services/files/service.go:256-327 | walking from the root meets every file of a well-formed bag exactly once with its full name and size, so counts and sizes agree with the flat list |
| Paths.StackIsNormal | pkg/httpServer/helpers.go:91 | cleaning leaves proper segments after leading ".." ones, and no ".." at all in a rooted path |
| Paths.CleanIsIdempotent | pkg/httpServer/helpers.go:91 | cleaning a cleaned path changes nothing |
| Paths.StackIsKept | pkg/httpServer/helpers.go:91 | cleaning keeps exactly the names that no ".." to their right cancels, after the ".." that cancel none, which a rooted path drops |
| Paths.ParentCancels | pkg/httpServer/helpers.go:91 | p/s/../b and p/b come to the same for every name s |
| Paths.JoinPathBelow | pkg/services/files/service.go:165 | joining a path without ".." below a folder gives the folder's segments followed by the path's |
| Paths.DirOfChild | pkg/templates/templates.go:111 | the directory of a child path is the parent path |
| Requests.SanitizedIsAccepted | pkg/httpServer/helpers.go:85-113 | only cleaned paths of at most 4096 bytes without a ".." segment or NUL come out |
| Requests.AcceptedExactly | pkg/httpServer/helpers.go:85-113 | a path is accepted exactly when it is the root, or fits once cleaned, holds no NUL and is rooted or never climbs above its start |
| Requests.SanitizedMeans | pkg/httpServer/helpers.go:85-113 | an accepted path comes out as the names that no ".." cancels, rooted if it was rooted and not "/" alone |
| Requests.SanitizeCancels | pkg/httpServer/helpers.go:85-113 | leaving out a name and the ".." behind it does not change the result, refusals included |
| Requests.RefusedExactly | pkg/httpServer/helpers.go:97-110 | a path is refused as too long exactly when it is over 4096 bytes once cleaned, else as climbing exactly when it is relative and climbs above its start, else as invalid exactly when it holds a NUL |
| Requests.CleanNeverGrows | pkg/httpServer/helpers.go:91-99 | cleaning a non-empty path never makes it longer |
| Requests.SanitizeTwice | pkg/httpServer/helpers.go:85-113 | sanitising the result again gives it back exactly when it has no outer white space and is not "/" |
| Requests.SlashIsNotStable | pkg/httpServer/helpers.go:87-89 | the exception is reached: "//" gives "/" and "/" gives "." |
| Links.FileLinks | pkg/templates/templates.go:121-153 | the links of a page, one per entry and in order, are the child links of the entries' names |
| Links.ChildLinkOpens | pkg/templates/templates.go:136-141 | routing a child link back and sanitising gives p/name with the same lower-case bag id, and is refused exactly when p/name is over 4096 bytes |
| Links.ParentLinkReturns | pkg/templates/templates.go:110-119 | the parent link on the page of p/name leads back to p, up to a leading slash |
| Links.ParentLinkOpens | pkg/templates/templates.go:110-119 | the parent link on the page of any accepted path, rooted or not, opens the same bag at the path without its last segment; the root page's opens the root page |
| Links.ValidBagIdExactly | pkg/httpServer/helpers.go:69-83 | the valid bag ids are those of 64 characters that decode as hexadecimal |
| Links.LongChildIsRefused | pkg/httpServer/helpers.go:97-99 | on the page of an accepted folder with a name of 4096 plain characters, the child links are refused as too long |
| FileService.LocalAnswersFilesExactly | pkg/services/files/service.go:160-166 | for a well-formed bag the local branch sets a file path for exactly the bag's files, if and only if the path is not a folder whose only child is a file with the folder's own name |
| FileService.RemoteServesFilesExactly | pkg/services/files/service.go:209-212 | the remote test takes the path for a file exactly when it is one, if and only if no only child of the path is named by a suffix of it |
| FileService.RemoteAnswersFilesExactly | pkg/services/files/service.go:209-223 | under the same condition the remote branch opens a stream for exactly the bag's files, up to the size limit and failing streams |
| FileService.SourcesAgreeExactly | pkg/services/files/service.go:209-212 | local and remote classification agree exactly when no only child of the path is named by another suffix of the path |
| FileService.FolderAnsweredAsFile | pkg/services/files/service.go:160-166 | the failing input of the local branch: for the bag with the one file n/n and the path n the answer sets a file path and no error, though n is a folder |
| FileService.FolderStreamedAsFile | pkg/services/files/service.go:209-223 | the failing inputs of the remote branch: for a bag with the one file d/f, d ending in f, and the path d the answer has a stream and no error, though d is a folder |
| FileService.AbStreamedAsFile | pkg/services/files/service.go:209-223 | one of them: the bag with the one file ab/b, asked for ab |
| FileService.GetFromLocalStorage | pkg/services/files/service.go:139-173 | unavailable without a bag and "no files" for an empty one; otherwise the tree's listing with the bag's id, size, peers, count and description, "path not found" exactly when the tree has nothing there, and a file path exactly when the branch's test holds, which leads from the bag's path and directory name down the requested segments |
| FileService.ServedPath | pkg/services/files/service.go:165 | the file path handed out is spelled cleanly and is the bag's own folder followed by the requested segments |
| FileService.ServedIsOpenedExactly | pkg/httpServer/methods.go:267-274 | for a bag with an absolute folder, the file path that is opened is the one handed out exactly when that has no outer white space, at most 4096 bytes and no NUL |
| FileService.SpacedNameIsNotOpened | pkg/httpServer/methods.go:267-274 | the failing inputs: every file whose name ends in white space can be asked for, and another path than the one handed out is opened |
| FileService.GetFromRemoteStorage | pkg/services/files/service.go:175-230 | unavailable without a client or a listing, the peers seen on a time-out, "no files" for an empty bag; otherwise what the tree has at the path, described as the network does: absent, a folder, or a file, which is too large over 50 MiB and else comes with what opening the stream gives |
| FileService.GetPathInfo | pkg/services/files/service.go:45-77 | a failing ban check and a ban stop the request; otherwise the local bag answers alone if it has the path; else the bag that was added, if it has the path; and only when neither has it, the network |
| FileService.HandsOutOneAnswer | pkg/services/files/service.go:62-74 | the local bag leaves nothing of the answer open to the other sources |
| FileService.AnySourceMeansTheSame | pkg/services/files/service.go:45-77 | when the sources hold the same files, whichever answers gives the same listing and content exactly for files |
| HeaderWait.EnsureBagInStorage | pkg/services/files/service.go:100-137 | at most 62 polls; success exactly when the last poll found the bag with its header or files, which no earlier one did; time-out only after the deadline; an add error only if the bag is not there |
| ListingCaching.ListingKeysDiffer | pkg/services/files/cache.go:18 | no two requests share a cache key, as bag ids hold no colon |
| ListingCaching.ListingCache.GetPathInfo | pkg/services/files/cache.go:17-36 | an entry is returned as stored, exactly while it lives; otherwise the service answers, and its answer is stored exactly when it is a listing without error, never a file or stream |
| SimpleCaching.SimpleCache.Set | pkg/cache/simple.go:42-49 | the key holds the value with a renewed expiry, the rest is unchanged |
| SimpleCaching.SimpleCache.Get | pkg/cache/simple.go:52-61 | a hit exactly for a key present and not expired; an expired entry is dropped |
| SimpleCaching.SimpleCache.Release | pkg/cache/simple.go:64-74 | answers like `Get` and leaves the key absent |
| SimpleCaching.SimpleCache.Sweep | pkg/cache/simple.go:77-90 | exactly the entries expired at the time read before the lock are dropped |
| SimpleCaching.SweepsAreUnobservable | pkg/cache/simple.go:42-90 | in every run of operations with sweeps at arbitrary moments the results are those of a timed map that is never swept |
| SimpleCaching.GetHitsExactly | pkg/cache/simple.go:42-90 | in every run `Get` hits with a value exactly when that value was the last one set for the key, at most the TTL ago, and not released since |
| Blacklist.BatchKeepsFaithful | db/init.sql:58-121 | one batch keeps the history a faithful record of the table |
| Blacklist.HistoryReplaysTable | db/init.sql:58-121 | after every run of batches the history replays to the table, each bag's history starts with a ban, and every unban directly follows a ban with the same admin, reason and comment |
| Blacklist.BatchOnBag | db/init.sql:58-121 | of the bags a batch names: a ban writes its row and logs it, an unban deletes the row and logs the one deleted, if there was one |
| Blacklist.Repository.UpdateBanStatus | pkg/repositories/files/repository.go:153-182 | banned items are upserted and the others deleted in one step that logs each change once; a refused statement changes nothing |
| BanCaching.CachedRepository.HasBan | pkg/repositories/files/cache.go:21-37 | a live entry answers "banned"; without one the table answers, or the call fails when the database is down; for lower-case ids the answer is the table's whatever is cached, a ban read is cached for an hour, and coherence is kept |
| BanCaching.CachedRepository.UpdateBanStatus | pkg/repositories/files/cache.go:59-75 | after a batch each banned bag is cached anew for an hour, each unbanned one is gone, the rest is as it was, and every cached entry names a banned bag |
| BanCaching.UpdateBans | pkg/services/reports/service.go:168-196 | a batch with one id that has not 64 bytes is refused as a whole; otherwise, unless the database refuses, each bag is lowered and banned or unbanned in table, history and cache as its item says, and no other bag is touched in any of them |
| Moderation.NextKeepsInv | pkg/services/files/service.go:45-60 | every step of requests, moderators, clock and sweeps keeps what cached bans, cached listings and answers rest on |
| Moderation.BanIsEffective | pkg/services/files/cache.go:17-36 | in every interleaved run a request that begins after a ban commits gets no file, stream or fresh listing: it is refused, fails, or gets a listing of its own path cached at most a minute ago by a request whose ban check preceded the commit |
| StaleAnswers.ListingOutlivesBan | pkg/services/files/cache.go:20-22 | the bound is reached: there is a run in which a request that begins after a ban commits is given a cached listing, for any delay up to a minute |
| Moderation.PassRestsOnTableRead | pkg/services/files/service.go:51-60 | content and fresh listings rest on a reading of the table made during the request, at a moment the bag was not banned |
| Moderation.RefusalRestsOnBan | pkg/repositories/files/cache.go:21-37 | a refusal rests on a moment at which the bag was banned: a reading of the table during the request, or the reading or commit behind a cache entry stored at most an hour before the answer |
| Moderation.CachedBansAreCurrentExactly | pkg/repositories/files/cache.go:29-34 | in a run every cached ban names, at every moment, a banned bag or one about to be released, exactly when no step stores a ban that was lifted and released before |
| Moderation.LateRestsOnOlderReading | pkg/repositories/files/cache.go:29-34 | such a late store goes back to a reading or commit at a moment before an unban of the bag |
| Moderation.PromptRefusalIsCurrent | pkg/repositories/files/cache.go:23-27 | in a run without late stores a request is refused from the cache only while the bag is banned or about to be released |
| StaleAnswers.RefusalOutlivesBan | pkg/repositories/files/cache.go:21-37 | late stores happen: there is a run in which a request is refused from the cache, for any delay up to an hour, though its bag is free at every moment of the request and no release is pending |
| UndisturbedRequests.RequestAlone | pkg/services/files/cache.go:17-36 | a request that nobody disturbs, from any state of the caches: a listing at most a minute old is given, else a ban at most an hour old refuses, else the table decides and its decision is stored; a database that is down and a source without an answer fail the request |
| UndisturbedRequests.ModeratorAlone | pkg/repositories/files/cache.go:59-75 | a batch that nobody disturbs bans and unbans exactly its bags, on the blacklist and in the cache; a refused one changes nothing |
| BagsCaching.TrimmedFits | pkg/clients/remote-ton-storage/cache.go:68-71 | with non-empty ids and stamps before now the cache ends within its limit |
| BagsCaching.NewestSurvives | pkg/clients/remote-ton-storage/cache.go:68-71 | the entry with the latest stamp is never evicted |
| BagsCaching.BagsCache.Get | pkg/clients/remote-ton-storage/cache.go:29-47 | a hit stamps its entry with the time read and returns it, a miss changes nothing |
| BagsCaching.BagsCache.FindOldest | pkg/clients/remote-ton-storage/cache.go:102-107 | in whatever order the map is walked: an entry used before now and before no other, or none when no stamp is earlier than now or the oldest entry has the empty id |
| BagsCaching.BagsCache.FreeUnsafe | pkg/clients/remote-ton-storage/cache.go:97-123 | one round drops an oldest entry above the limit, and stops and closes exactly what it held, or the cache is settled |
| BagsCaching.BagsCache.Set | pkg/clients/remote-ton-storage/cache.go:49-76 | the loop ends; dropped entries are no newer than kept ones, nothing is dropped at or below the limit, the rest is untouched, and it stops above the limit only when no stamp is earlier than now |
| Recency.NewestIsFront | pkg/clients/remote-ton-storage/cache.go:97-123 | the keys with the newest stamps are the front of the recency list |
| Recency.TrimDropsOldest | pkg/clients/remote-ton-storage/cache.go:49-76 | a store that evicts keeps the newest stamps among all ever given |
| Recency.CacheIsRecencyList | pkg/clients/remote-ton-storage/cache.go:29-76 | after any run of `Get` and `Set` with increasing stamps the keys are exactly the MaxCacheEntries most recently touched distinct bags |
| Recency.LargerCacheHoldsMore | pkg/clients/remote-ton-storage/cache.go:97-123 | on one request trace a larger limit always holds a superset of a smaller one's bags |
| Recency.GetLater | pkg/clients/remote-ton-storage/cache.go:29-47 | a lookup at a later time than before is a step of the runs above, on the stamps of the cache |
| Recency.SetLater | pkg/clients/remote-ton-storage/cache.go:49-76 | so is a store |
| Recency.AskLater | pkg/clients/remote-ton-storage/client.go:234-305 | a successful `getTorrent` at a later time than before is a request of the traces above |
| KeyedMutex.LockTable.Get | pkg/clients/remote-ton-storage/client.go:307-316 | a known key gets its own mutex, a new key a new one, and no two keys share |
| KeyedMutex.MoveKeepsValid | pkg/clients/remote-ton-storage/client.go:242-244 | taking, locking and unlocking keep one mutex per key and its owner inside |
| KeyedMutex.BlockedBySameKey | pkg/clients/remote-ton-storage/client.go:242-244 | a waiting thread is blocked exactly when a thread of the same key is inside |
| KeyedMutex.OneInsidePerKey | pkg/services/files/service.go:79-98 | in every run at most one thread per key is between lock and unlock, so at most one waits for a bag's header |
| Hex.LowerIsUnique | pkg/clients/remote-ton-storage/client.go:253 | two lower-case ids that decode to the same bytes are the same id |
| Hex.EncodeDecode | pkg/clients/remote-ton-storage/client.go:253 | the bytes an id decodes to, half as many as its characters, spell the id in lower case |
| Hex.DecodeEncode | pkg/clients/remote-ton-storage/client.go:253 | every sequence of bytes is what some id decodes to |
| TorrentProtocol.NextKeepsInv | pkg/clients/remote-ton-storage/client.go:234-305 | every step of any number of calls keeps the invariant of cache, mutexes, index and running torrents |
| TorrentProtocol.CallsExcludeEachOther | pkg/clients/remote-ton-storage/client.go:242-244 | in every interleaving at most one call per bag is between lock and unlock |
| TorrentProtocol.StoreNeverOverwrites | pkg/clients/remote-ton-storage/client.go:247-302 | in every interleaving a store finds no entry for its bag |
| TorrentProtocol.NoLiveTorrentIsLost | pkg/clients/remote-ton-storage/client.go:259-302 | in every interleaving a torrent started and not stopped is the cached one for its bag or held by the one call inside that bag's lock |
| TorrentProtocol.CachedIsAliveAndIndexed | pkg/clients/remote-ton-storage/virtualStorage.go:46-64 | in every reachable state a cached bag's torrent runs, its downloader is open, and the overlay index leads to that very torrent |
| TorrentProtocol.RestLeavesCachedTorrents | pkg/clients/remote-ton-storage/client.go:234-305 | once all calls have returned the running torrents are exactly the cached ones |
| Calls.ReturnedIsOfItsBag | pkg/clients/remote-ton-storage/client.go:234-305 | in every interleaving no call returns a torrent or downloader made for another bag |
| Calls.HandedOutAlive | pkg/clients/remote-ton-storage/client.go:234-305 | in every interleaving what a call finds in the cache, or leaves there, runs and is open at that step |
| Calls.CachedCallAlone | pkg/clients/remote-ton-storage/client.go:236-240 | a call for a cached bag, from any state, returns its torrent and stamps it, and nothing else happens |
| Calls.WaitedCallGetsStored | pkg/clients/remote-ton-storage/client.go:246-251 | a call that waited while another stored its bag returns what the other stored, and makes nothing |
| Calls.NewCallAlone | pkg/clients/remote-ton-storage/client.go:253-304 | a call for a bag that is not cached, from any state in which its mutex is free: bad ids and failures return nothing and leave cache and running torrents as they were; success is indexed, stored and returned, and what that evicts is stopped and closed |
| Downloaders.OpenDownloadersAreAccounted | pkg/clients/remote-ton-storage/client.go:269-302 | in every interleaving an open downloader is the cached one for its bag, held by a call inside that bag's lock, or was given up when a header was missing, and then is neither cached nor held |
| Downloaders.LeakedForGood | pkg/clients/remote-ton-storage/client.go:296-300 | a downloader that was given up is never closed, cached or held again |
| Downloaders.ConservedExactly | pkg/clients/remote-ton-storage/client.go:269-302 | every open downloader is cached or held exactly in the runs in which no header was missing |
| Downloaders.HeaderMissingLeaks | pkg/clients/remote-ton-storage/client.go:296-300 | the failing run: one call whose header does not load leaves nothing cached, all calls returned, and an open downloader |
| Downloaders.SpellingsLoseATorrent | pkg/clients/remote-ton-storage/client.go:242-302 | for any two spellings of a decodable bag id there is a run whose second store overwrites the first, leaving a running torrent neither cached nor held |
| TorrentProtocol.SpellingsShareEverythingButTheLock | pkg/clients/remote-ton-storage/client.go:307-316 | two spellings of a bag id decode alike and can both be between lock and unlock |
| TorrentClient.Client.GetTorrent | pkg/clients/remote-ton-storage/client.go:234-305 | a cached bag is handed out and stamped, and nothing else changes; otherwise the error names what failed: the id, the start, a timed out connection, another connection error, or the header; an error leaves cache and running torrents as they were; success stores the torrent and evicts by the policy, the kept entries untouched; in each case every cached bag is alive and indexed and nothing else runs |
| Pieces.PartContinues | pkg/clients/remote-ton-storage/client.go:133-139 | each sliced piece continues the file exactly where the one before it ended, one-piece files included |
| Pieces.WritePiece | pkg/clients/remote-ton-storage/client.go:120-147 | a turn goes on exactly when the piece comes and the reader takes its part; what got through is in the pipe, and a turn that does not go on closes it with the reason |
| Pieces.WritePieces | pkg/clients/remote-ton-storage/client.go:116-148 | the pipe gets exactly bytes [start, end) when every piece is taken, otherwise the bytes up to the first that is not, what got through of it, and a closing that says why |
| Pieces.OutcomeIsBeginning | pkg/clients/remote-ton-storage/client.go:116-148 | whatever the faults, the pipe holds a beginning of the file, and is closed cleanly exactly when every piece is taken, with the whole file in it |
| Pieces.OutcomeStops | pkg/clients/remote-ton-storage/client.go:120-147 | a writer that stops early stops at the first piece not taken, after the bytes before that piece and what got through of it, with the closing that says why: request over, piece not loaded, or reader gone |
| Pieces.LoopEnds | pkg/clients/remote-ton-storage/client.go:120 | the 32-bit counter passes the last piece exactly when that is not piece 2^32 - 1 |
| Pieces.OffsetIsProduct | pkg/clients/remote-ton-storage/client.go:133-139 | a piece begins at its number times the piece size, within the bag |
| Pieces.RangeOfFile | pkg/clients/remote-ton-storage/client.go:133-139 | the range runs from FromPiece·P + FromPieceOffset to ToPiece·P + ToPieceOffset |
| Streaming.MeteredStream.Read | pkg/clients/remote-ton-storage/metrics_stream.go:19-29 | reads pass unchanged, every byte is counted, the first byte is observed once |
| Streaming.MeteredStream.Close | pkg/clients/remote-ton-storage/metrics_stream.go:31-41 | only the first close closes the pipe, observes the duration and lowers the gauge |
| Streaming.StreamWithDeadline | pkg/httpServer/helpers.go:172-205 | under any chunking the client gets the stream's content or a beginning of it, all that was read unless some could not be sent, and all of it when the stream ended besides; each read, of at most 64 KiB, follows a reading of the clock that is not after the deadline, and the copy stops for the deadline exactly when the last reading is; the announced length is the size; the stream is closed once; bytes counted are bytes sent unless some could not be sent |
| Streaming.StreamFile | pkg/clients/remote-ton-storage/client.go:94-160 | the stream reads as a beginning of the file, and as all of it when it ends cleanly; one more stream is active |
| Streaming.ServeRemoteFile | pkg/httpServer/methods.go:317-319 | from pieces to client: a beginning of the file's bytes; unless deadline or client cut it short, the stream ends at the end of the file exactly when every piece came and was taken, and then all the announced bytes were sent if the last flush did not fail; otherwise with the error of the first piece that did not; the gauge of active streams is back where it was |

## Left out

- ADNL, the DHT, the prefetcher and the inside of torrents: torrents and downloaders are numbers that are started, stopped and closed; the offsets `GetFileOffsets` returns are assumed to describe the file.
- The HTTP framework, logging, Prometheus registration, configuration and deployment.
- URL percent-decoding, HTML escaping, templates and content types: links are followed for names that need no escaping and no trimming of white space.
- Invalid UTF-8: strings are sequences of characters, with their UTF-8 length where bytes are counted; sizes are natural numbers, so 64-bit limits are not modelled.
- `strings.ToLower` beyond the letters A to Z, which is all that bag ids hold.
- Columns `created_at` and `archived_at`, the length limits of the columns, and batches that name a bag twice, on which the database refuses the statement or leaves the result open; a refused statement changes nothing.
- `serveHTMLFile`: it reads a stream once, so nothing holds of the whole file.
- `BagsCache.Clear` and `SimpleCache.GetAll`, which nothing calls, and the read-only queries on reports and bans.
- Local files served through the copy loop, and the errors of `StreamFile` and `ListFiles` before there is a stream: their outcomes are parameters of `FileService`.
- TorrentClient.Client.GetTorrent: one caller at a time, so the second look at the cache always agrees with the first; callers that overtake each other are in `TorrentProtocol`, whose steps are a state machine on values.
- TorrentProtocol.NextKeepsInv: for lower-case ids; a store may evict any part of the cache, more than the policy of `BagsCache` allows; which entries go is in `BagsCaching` and `Recency`.
- TorrentProtocol.CachedIsAliveAndIndexed: the overlay hash is assumed injective, and hashing is assumed never to fail.
- Streaming.StreamFile: writer and reader do not take turns; the bytes the reader takes of each piece are given beforehand, which yields the same outcomes because the pipe holds nothing back.
- FileService.AnySourceMeansTheSame: asks that no only child of the path is a file named by a suffix of the path, the exact condition under which the remote branch is right (`FileService.RemoteServesFilesExactly`).
- Moderation.BanIsEffective: the storages' answers are reduced to nothing, a file or a listing; their contents are in `FileService`.
- Calls.NewCallAlone: a call that waits for its mutex is `Calls.WaitedCallGetsStored` or goes on as this one does; that every waiting call gets its turn is left to the scheduler.
- Recency.LargerCacheHoldsMore: every request of the trace succeeds in making its torrent, and each call reads a later time than the one before it.
- HeaderWait.EnsureBagInStorage: that one waiter per bag is inside is `KeyedMutex.OneInsidePerKey`; the answers of `GetBag` and the end of the request are parameters.
