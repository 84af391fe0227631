# Noema Atlas engine: a verified model

A Dafny model of the protocols and codecs in the engine crate of Noema Atlas
(`crates/core`), with proofs of what they keep. Code that changes state step by step is a class
or a loop with invariants, proved against specification functions; concurrent code is a state
machine over its single stores and lock-protected accesses, and its lemmas quantify over every
interleaving. Hashing is symbolic: a hash is the term that was hashed, which makes it injective
and keeps leaves and interior nodes apart.

| module | what it models |
|---|---|
| `StripeGrid`, `StripeSwarm`, `StripeAttempts` | cutting a blob into pieces; lanes that take, fetch, requeue and account for pieces from one shared queue; the order of the queue and the limit on failures |
| `StripeJournal`, `StripeForgery`, `StripeLoss`, `StripeResume`, `StripeRounds` | the text journal, cut at any byte by a crash, appended to after a resume, and left behind when the scratch file is removed or another blob uses its path; when its skip set can be believed; whole fetches over many rounds |
| `AdmissionQueue` | the download queue: permits, the waiting list users reorder, and its notifications |
| `Merkle`, `TreeBlob`, `Verify` | the chunk tree and its file format; streaming verification |
| `Download`, `Segments` | one streaming attempt, commit, retry and failover; parallel segments |
| `Base32`, `Payload`, `Gguf`, `Fences`, `InlineCode` | the codecs |
| `ShareGate`, `TransferFlags`, `Uploads`, `Planner` | confirm-before-share, pause and stop flags, upload accounting, source ranking |
| `Common`, `Decimal`, `Text`, `Bytes` | shared helpers: results, decimal numbers, lines, little-endian integers |

## Where the code does less than its comments say

Five properties do not hold on all inputs. The model follows the code; each has its exact
condition or its exact exception.

- **Stripe journal, torn lines.** A torn line is never repaired: the next run appends behind it.
  The bytes that survive several crashes can therefore spell a line of their own, such as
  `20480 24576`, for a piece that was never fetched, and the next run skips that piece.
  `StripeForgery.SkipIsHonestIff`: apart from the next item, every history is safe if and only if
  the blob has at most 24 MiB. In a smaller grid, digits written in front of a start never give
  another start, except the last one, whose end cannot then be completed. Above 24 MiB the danger
  is exactly a run that keeps a journal torn inside the first number of its last line
  (`TornResume`): `StripeForgery.UntornIsHonest` shows every other history safe, for blobs of every
  size, clean pauses and crashes behind a complete line among them. Ending a kept journal with a
  newline before appending to it would always avoid it.
- **Stripe journal, lost scratch file.** The scratch file is removed while its journal stays
  (`crates/core/src/iroh_node.rs:1317-1319`, `crates/core/src/transport.rs:718-720` and
  `crates/core/src/transport.rs:756-760`), and the next run brings a new file to full length
  before it replaces the journal (`crates/core/src/iroh_node.rs:1127-1132`). If it dies in between,
  the run after it skips pieces that are zeros. `StripeLoss.StaleJournalSkips` is that history for
  every piece of every blob; `StripeLoss.EveryHistoryIff`: without a guard only the empty blob is
  safe with `fetch_striped` (its one caller uses it from 8 MiB up,
  `crates/core/src/iroh_node.rs:1048`); `StripeLoss.GuardIsExact`: for blobs of at most 24 MiB, and
  for histories of any blob without a torn resume, a history is safe at every point if and only if
  no reset dies in that window while the old journal still lists pieces. Removing the journal
  before the scratch file is created anew would always meet the guard. A run of another blob of the
  same size can open the window too, because both files are named by 16 characters of the hash
  (`crates/core/src/iroh_node.rs:110-115`). The engine verifies the
  scratch file before it commits, so the harm is a failed download and a source charged for it.
- **Stop during admission.** `try_begin` clears two flags in two stores, so a stop whose two
  stores straddle it leaves cancel set and discard clear, and the run takes it for a pause; the
  comment at `crates/core/src/transfer.rs:118-129` says admission is atomic.
  `TransferFlags.StopsAreSeenIff`: later stops are all seen as stops if and only if, when the flags
  had been cleared, cancel was clear and the only requests under way were stops that had not yet
  stored anything; a pause that had not would do as well to break it.
- **Preference tiers.** `crates/core/src/planner.rs:160-165` says a preferred tier always
  outranks the others. `Planner.TiersDecideIff`: that holds, whatever the health figures, if and
  only if the preferred source has at most one integrity failure.
- **Inline code.** A body without backticks that has a space at both ends loses one space on
  each side: `InlineCode.SpanThenParse` gives both halves.

## Model

| member | source | states |
|---|---|---|
| StripeGrid.StripePieces | crates/core/src/iroh_node.rs:157-168 | the loop produces the grid of 4 MiB pieces, the last one cut at the blob's last chunk |
| StripeGrid.GridMember | crates/core/src/iroh_node.rs:157-168 | a piece is in the grid exactly when its start is aligned and inside and its end is the next boundary or the last chunk |
| StripeGrid.GridKeys | crates/core/src/iroh_node.rs:129-154 | a piece of the grid is identified by its start, and by its end |
| StripeGrid.ByteOwner | crates/core/src/iroh_node.rs:157-168 | the pieces tile the blob: each byte lies in one piece of the grid and in no other |
| StripeGrid.BytesInAdd | crates/core/src/iroh_node.rs:240-242 | crediting one more piece adds exactly that piece's bytes |
| StripeGrid.BytesInAll | crates/core/src/iroh_node.rs:240-242 | the byte counts of all pieces add up to the blob's size |
| StripeSwarm.StripeShared.constructor | crates/core/src/iroh_node.rs:1134-1182 | a run starts with the pieces that are not skipped, the skipped pieces' bytes credited, and the attempt ceiling of its peers, whose meaning is in the four `StripeAttempts` rows |
| StripeSwarm.StripeShared.TakePiece | crates/core/src/iroh_node.rs:300-315 | takes the front of the queue, or nothing when it is empty |
| StripeSwarm.StripeShared.CompletePiece | crates/core/src/iroh_node.rs:240-255 | credits the bytes, counts the piece down, appends its journal line, and reports progress exactly after every further 1 MiB and at the end |
| StripeSwarm.StripeShared.RequeuePiece | crates/core/src/iroh_node.rs:257-263 | at the ceiling the fetch becomes fatal, below it the piece goes to the back |
| StripeSwarm.RunKeeps | crates/core/src/iroh_node.rs:300-352 | every interleaving of lanes keeps pieces apart, fates exclusive, coverage, counters and written bytes right |
| StripeSwarm.ExactlyOnePlace | crates/core/src/iroh_node.rs:208-264 | in every reachable state a piece to fetch is in exactly one of: queue, in flight, fetched, dropped as fatal |
| StripeSwarm.PiecesLeftCounts | crates/core/src/iroh_node.rs:240-243 | `pieces_left` counts the pieces not yet accounted for and is never decremented at zero |
| StripeSwarm.UnfinishedIsQueued | crates/core/src/iroh_node.rs:257-263 | when all lanes have ended without a fatal error and pieces are left, exactly the unfetched pieces are still queued |
| StripeSwarm.NoPieceLeftMeansBlob | crates/core/src/iroh_node.rs:1264-1274 | when no piece is left, the scratch file is the blob byte for byte and `bytes_done` is its size |
| StripeAttempts.GivenBackIff | crates/core/src/iroh_node.rs:257-263 | in every run a failed piece goes back to the queue exactly when its failures are below the ceiling that the starting peers and the joined ones give, and otherwise the fetch is fatal |
| StripeAttempts.ManyFailuresAreFatal | crates/core/src/iroh_node.rs:1172 | as long as no peer joins, a piece that fails `peers + 2` times, or six times if that is more, ends the fetch |
| StripeAttempts.FewFailuresNeverDrop | crates/core/src/iroh_node.rs:1172 | whatever else happens, a piece with fewer failures than that is not dropped, and without such a piece and without the watchdog the fetch does not become fatal |
| StripeAttempts.TakesFollowQueue | crates/core/src/iroh_node.rs:300-315 | first come, first served: what lanes have taken, followed by what still waits, is what waited at the start followed by what was given back |
| StripeAttempts.FirstPassAscends | crates/core/src/iroh_node.rs:1134-1160 | the pieces wait in the order of the blob |
| StripeJournal.NoForgedStart | crates/core/src/iroh_node.rs:129-154 | in a grid of at most 24576 chunks, digits in front of a printed start spell another start only for the last piece |
| StripeJournal.AppendEntry | crates/core/src/iroh_node.rs:240-247 | a trusted last line stays trusted when any prefix of a fetched piece's line is appended to it: up to 24 MiB always, in any grid unless it is torn inside its first number |
| StripeJournal.LoadTrusted | crates/core/src/iroh_node.rs:129-154 | loading a trusted journal lists no piece that was not fetched |
| Text.CrLfEndsLine | crates/core/src/iroh_node.rs:142-149 | one carriage return in front of a newline belongs to the line break |
| Decimal.ParseIs | crates/core/src/iroh_node.rs:148-152 | digits within 64 bits are parsed to their value, with or without a plus sign, and nothing else is |
| StripeJournal.OtherHeaderIsEmpty | crates/core/src/iroh_node.rs:144-147 | any first line other than `v1`, the size and the hash, and nothing is loaded, whatever follows |
| StripeJournal.ForeignIsQuiet | crates/core/src/iroh_node.rs:129-154 | the journal of another blob, cut anywhere, lists nothing for this one |
| StripeJournal.ResetCrashKeeps | crates/core/src/iroh_node.rs:1125-1133 | a reset that dies anywhere but in the exposed window keeps the journal harmless |
| StripeJournal.RunKeeps | crates/core/src/iroh_node.rs:1116-1160 | over every guarded sequence of resumes, resets, appends, crashes, removals, exports and runs of other blobs on the same paths -- of a blob of at most 24 MiB, or of any blob without a torn resume -- the journal is trusted, lists nothing, or has no file of full length to vouch for |
| StripeForgery.Forgery | crates/core/src/iroh_node.rs:129-154 | above 24 MiB some history without any reset skips a piece that was never fetched |
| StripeForgery.SkipIsHonestIff | crates/core/src/iroh_node.rs:1116-1160 | every guarded history skips only pieces whose bytes are in the file, if and only if the blob has at most 24 MiB |
| StripeForgery.UntornIsHonest | crates/core/src/iroh_node.rs:1116-1160 | for blobs of every size, a guarded history whose runs keep no journal torn inside a first number skips only pieces whose bytes are in the file |
| StripeLoss.StaleJournalSkips | crates/core/src/iroh_node.rs:1117-1133 | for every piece of every blob: logged, scratch file removed, reset dead before the new journal, and the next run skips the piece although the file is empty |
| StripeLoss.EveryHistoryIff | crates/core/src/iroh_node.rs:1116-1160 | with removals and no guard, every history is safe if and only if the blob is empty |
| StripeLoss.GuardIsExact | crates/core/src/iroh_node.rs:1116-1160 | for blobs of at most 24 MiB, and for histories of any blob without a torn resume, a history and any run started within it is safe if and only if no reset dies between sizing the new file and replacing a journal that lists pieces |
| StripeResume.IntactIsSkipped | crates/core/src/iroh_node.rs:129-154 | a journal that ends with a whole line, in the form `start end`, is believed in full: exactly its pieces are skipped |
| StripeResume.OffGridIsDropped | crates/core/src/iroh_node.rs:1117-1125 | a single line that names no piece of the grid, and nothing in the journal is believed |
| StripeResume.NothingIsLost | crates/core/src/iroh_node.rs:1116-1160 | a run fetches pieces in any order and ends after a whole line; the next run skips every one of them and nothing else |
| StripeRounds.RoundSound | crates/core/src/iroh_node.rs:1116-1160 | for blobs of every size, a whole careful round -- an interrupted run with its lanes and journal, a reset, a removal or an export -- leaves files whose skip set is covered by correct bytes |
| StripeRounds.ResumedFetchIsTheBlob | crates/core/src/iroh_node.rs:1116-1182 | for blobs of every size: after any careful rounds (no reset dead in the exposed window and, above 24 MiB, no run that kept a torn number), a run that ends with no piece left has the blob's bytes |
| AdmissionQueue.DownloadQueue.constructor | crates/core/src/engine.rs:685-691 | at least one slot, nobody waiting |
| AdmissionQueue.DownloadQueue.Enqueue | crates/core/src/engine.rs:696-702 | an id joins the end of the list once |
| AdmissionQueue.DownloadQueue.TryAcquire | crates/core/src/engine.rs:711-718 | takes a permit exactly when the id is in front of the list and one is free |
| AdmissionQueue.DownloadQueue.Release | crates/core/src/engine.rs:651-666 | dropping a permit frees one slot and leaves the list alone |
| AdmissionQueue.DownloadQueue.Dequeue | crates/core/src/engine.rs:669-682 | removes the id and keeps all others in order |
| AdmissionQueue.DownloadQueue.Reorder | crates/core/src/engine.rs:741-764 | the list becomes what the next four rows describe; the caller notifies exactly when the order changed |
| AdmissionQueue.ReorderMovesOne | crates/core/src/engine.rs:741-764 | a move puts one id in the place asked for, keeps the others in order, and loses or duplicates none |
| AdmissionQueue.UpIs | crates/core/src/engine.rs:741-764 | up swaps an id with the one in front of it, and at the front changes nothing |
| AdmissionQueue.DownIs | crates/core/src/engine.rs:741-764 | down swaps it with the one behind it, and at the back changes nothing |
| AdmissionQueue.EndsAre | crates/core/src/engine.rs:741-764 | top and bottom put it at the two ends, and an id that does not wait changes nothing |
| AdmissionQueue.StepsAreQueueCalls | crates/core/src/engine.rs:696-764 | every step of the interleaved machine changes list and permits as the queue's methods do, and a check followed by a try succeeds when `TryAcquire` would |
| AdmissionQueue.PermitsConserved | crates/core/src/engine.rs:642-733 | held and free permits always add up to the slots, and the list is the waiting agents without duplicates |
| AdmissionQueue.FrontRunsOrIsNotified | crates/core/src/engine.rs:706-730 | no lost wakeup: with a slot free, the front waiter can run or a notify is still owed |
| AdmissionQueue.NeverStuck | crates/core/src/engine.rs:642-733 | when only running downloads and unwoken waits are left, nobody waits or all slots are taken |
| AdmissionQueue.AdmittedInArrivalOrder | crates/core/src/engine.rs:696-733 | without reorders and cancels, slots are given out in arrival order |
| Merkle.MerkleRoot | crates/core/src/hash.rs:250-268 | the level-by-level loop computes the recursive root |
| Merkle.RootFringe | crates/core/src/hash.rs:233-268 | climbing to the root keeps the bytes below it, for any number of leaves and promoted lone nodes |
| Merkle.RootSplits | crates/core/src/hash.rs:250-268 | below the root of more than one leaf, the left side is the largest complete tree that leaves something for the right side |
| Merkle.SmallRoots | crates/core/src/hash.rs:250-268 | the roots of one, two and three leaves: a lone last node is promoted |
| Merkle.RootGivesBytes | crates/core/src/hash.rs:233-268 | the file can be read back from its root |
| Merkle.SameRootSameBytes | crates/core/src/hash.rs:228-268 | two files with one root have the same bytes, for any lengths and any two positive leaf sizes |
| Merkle.FillLeaf | crates/core/src/hash.rs:290-308 | under reads of any positive length a leaf buffer holds exactly the next piece of the file |
| Merkle.FromFile | crates/core/src/hash.rs:285-318 | unless cancelled, the tree has the leaf hashes of fixed-size chunking at the clamped leaf size |
| TreeBlob.ToBytes | crates/core/src/hash.rs:342-350 | writes the leaf size and the leaf hashes |
| TreeBlob.FromBytes | crates/core/src/hash.rs:352-364 | parses exactly the blobs of the right length, and what it returns prints back to the same blob |
| TreeBlob.WriteThenRead | crates/core/src/hash.rs:342-364 | reading back a written tree is the identity |
| Verify.StreamingVerifier.VerifyLeaf | crates/core/src/verify.rs:110-131 | accepts exactly a leaf whose hash is in the tree at the current index |
| Verify.StreamingVerifier.Feed | crates/core/src/verify.rs:45-70 | fails exactly at the first complete leaf that is wrong, and otherwise every complete leaf is right |
| Verify.StreamingVerifier.Finish | crates/core/src/verify.rs:73-106 | succeeds exactly when the bytes seen pass the whole-stream check, with their digests; the kind of error tells a wrong leaf or leaf count from a wrong size and a wrong digest |
| Verify.BadLeafIsFatal | crates/core/src/verify.rs:45-70 | once a complete leaf is wrong, no continuation of the stream is accepted |
| Verify.VerifyParts | crates/core/src/verify.rs:17-131 | for every split of a stream into parts the outcome is the whole-stream check; a file that the manifest describes is accepted; a git OID without a declared size is always rejected |
| Verify.AcceptedIsTheFile | crates/core/src/verify.rs:73-106 | a stream accepted against any digest or root of a file is that file |
| Verify.DescribedIsAccepted | crates/core/src/hash.rs:76-95 | a file passes the check against any of its own digests, its size or none, and its own chunk tree or none |
| Verify.VerifyFile | crates/core/src/verify.rs:17-131 | against an honest description with at least one digest or tree, a stream is accepted, in whatever parts, if and only if it is the file |
| Download.Artifact.TruncateTo | crates/core/src/engine.rs:4385-4396 | cuts or extends an existing temp file, and leaves a missing one missing |
| Download.Artifact.PrepareResume | crates/core/src/engine.rs:2709-2774 | a non-zero resume point means the verifier has consumed exactly that prefix of the temp file, otherwise both are empty; a prefix that is there, can be read and does not contradict the tree is kept unless cancelled |
| Download.Artifact.ResumePoint | crates/core/src/engine.rs:2236-2250 | a leftover that cannot be resumed is discarded, one that can is kept, and the verifier has seen exactly what is left |
| Download.Artifact.Realign | crates/core/src/engine.rs:2299-2308 | after the rebuild the verifier has seen the whole temp file, or nothing although the offset is positive; cutting back to an offset inside a good prefix leaves both at that prefix |
| Download.Artifact.Pump | crates/core/src/engine.rs:2324-2420 | the loop keeps temp file and verifier aligned, or leaves the verifier short by the ignored offset; from an aligned start, too many bytes or a wrong leaf is an integrity failure, and any other stream ends as it ends itself, with all its bytes in the file |
| Download.Artifact.StreamOnce | crates/core/src/engine.rs:2225-2463 | whatever partial was left and whatever offset the server answers, a commit publishes bytes that pass every declared check under their own key, within the free space; a failure changes no blob; and an attempt from the beginning, or from inside a good leftover, comes to exactly one of: commit, retry when short, the error of the stream, an integrity failure -- or is cancelled |
| Download.Artifact.Commit | crates/core/src/cas.rs:183-222 | the temp file becomes the blob under its key, or is dropped as a duplicate, and no other blob changes |
| Download.Artifact.VerifyTempFull | crates/core/src/engine.rs:2676-2705 | unless cancelled or unreadable, succeeds exactly when the whole temp file passes the check without a tree |
| Download.Artifact.StreamSegmented | crates/core/src/engine.rs:2470-2673 | whatever the parallel segments assembled, a commit publishes only bytes that pass the check; complete segments that pass it are committed unless cancelled or unreadable; what is left behind is never resumed |
| Download.HonouredSegmentsPass | crates/core/src/engine.rs:2470-2673 | when every range is honoured and every segment full, the attempt passes its check whenever the source does |
| Download.Artifact.TrySource | crates/core/src/engine.rs:2119-2218 | an integrity failure is charged to the source, once, over old bytes, its own and padding it caused, and empties the temp file; nothing else is charged; a source whose segments pass, or that delivers the file over several broken-off streams, is not given up |
| Download.Artifact.TryStream | crates/core/src/engine.rs:2162-2218 | only retriable failures are tried again, and exactly up to the limit |
| Download.Artifact.TryOnce | crates/core/src/engine.rs:2162-2218 | of a source that delivers in the end, each attempt commits, or keeps what the stream sent so that the following answers still deliver |
| Download.Artifact.TryNext | crates/core/src/engine.rs:1903-1973 | a partial that another source wrote is dropped first, one's own is continued; the new owner wrote the whole partial |
| Download.Artifact.Turn | crates/core/src/engine.rs:1899-1973 | a turn that ends in an uncancelled failure extends the list of those tried, and of those that cannot deliver; a banned source is passed over |
| Download.Artifact.DownloadArtifact | crates/core/src/engine.rs:1870-1977 | unless cancelled, an error means that every source not banned was tried, in plan order, and none of them delivers an acceptable file; a first source that continues its own partial succeeds; and without a chunk tree, every source charged with an integrity failure wrote, or by its offset caused, every byte then in the temp file, given the same of the recorded owner |
| Segments.SegmentRanges | crates/core/src/engine.rs:2484-2498 | past the guard, at most n non-empty ranges tile [0, total), all but the last an equal share, rounded up, and of at least the minimum size |
| Segments.TilesOrdered | crates/core/src/engine.rs:2484-2498 | ranges are disjoint and in order |
| Segments.TilesCover | crates/core/src/engine.rs:2484-2498 | every offset is in a range |
| Segments.AllSegmentsFull | crates/core/src/engine.rs:2528-2614 | any interleaving of writers, with chunks of any size and streams that run on, leaves the source's bytes once all segments are full |
| Base32.PushFive | crates/core/src/announce_auth.rs:163-176 | pushing five bits into the wrapping 32-bit register loses none of the at most twelve live bits |
| Base32.PopEight | crates/core/src/announce_auth.rs:163-176 | the top eight live bits are the next byte and the others stay |
| Base32.SpellsUnique | crates/core/src/announce_auth.rs:154-183 | symbol strings and byte strings correspond one to one |
| Base32.AlphabetIs | crates/core/src/announce_auth.rs:154-207 | the 32 symbols, in order, with upper case read as lower case |
| Base32.Base32Decode | crates/core/src/announce_auth.rs:154-183 | succeeds exactly on spellings of section 6 of RFC 4648, with the bytes spelled |
| Base32.Base32Encode | crates/core/src/announce_auth.rs:190-207 | spells every byte string in lower case without padding |
| Base32.EncodeThenDecode | crates/core/src/announce_auth.rs:154-207 | decoding inverts encoding for every byte string |
| Base32.DecodeThenEncode | crates/core/src/announce_auth.rs:154-207 | every accepted string without padding re-encodes to its lower-case form |
| Payload.AudienceStaysOneLine | crates/core/src/announce_auth.rs:18-39 | canonicalising an audience never brings in a newline |
| Payload.AudienceIs | crates/core/src/announce_auth.rs:18-39 | an address becomes its lower-case scheme, its lower-case authority without the default port, and its path as it is, whatever white space is around it and however many slashes follow |
| Payload.DefaultPortVanishes | crates/core/src/announce_auth.rs:30-34 | `:443` vanishes for https and `:80` for http; every other end of an authority stays |
| Payload.NoSchemeIs | crates/core/src/announce_auth.rs:19-23 | a text without `://` is put in lower case as a whole |
| Payload.FirstDifferenceDecides | crates/core/src/announce_auth.rs:71 | ids are ordered by their first difference |
| Payload.AscendingUnique | crates/core/src/announce_auth.rs:71 | sorting ids gives one result for one multiset |
| Payload.JoinSplits | crates/core/src/announce_auth.rs:72-90 | splitting a payload at newlines gives back its lines |
| Payload.CanonicalPayload | crates/core/src/announce_auth.rs:55-90 | filtering, sorting and appending field by field gives the joined payload lines |
| Payload.PayloadShape | crates/core/src/announce_auth.rs:54-90 | the text of a payload, written out: verb, node id, time, audience, ticket, and each id in order on its own line |
| Payload.RefusedIff | crates/core/src/announce_auth.rs:43-70 | a request has no payload exactly when a non-empty id is not 64 lower-case hex digits |
| Payload.SamePayloadIff | crates/core/src/announce_auth.rs:55-90 | requests with newline-free fields have equal payloads exactly when they agree on every field and on the multiset of non-empty ids |
| Payload.OrderNeverMatters | crates/core/src/announce_auth.rs:51-71 | the order of ids, and empty ids, change no payload |
| Payload.NewlineForgesAnId | crates/core/src/announce_auth.rs:76-88 | a newline in the ticket can stand for an id, so newline-free fields are needed |
| Gguf.ReadString | crates/core/src/inspect.rs:207-213 | a length-prefixed string is read whole |
| Gguf.SkipStrings | crates/core/src/inspect.rs:238-275 | skipping a string array ends exactly behind it |
| Gguf.SkipArray | crates/core/src/inspect.rs:238-275 | skipping an array of any kind ends exactly behind it |
| Gguf.SkipValue | crates/core/src/inspect.rs:238-275 | skipping a value advances exactly its encoded length |
| Gguf.ReadValueString | crates/core/src/inspect.rs:215-223 | the text of a value, or none, and the cursor is behind the value |
| Gguf.ReadValueU32 | crates/core/src/inspect.rs:225-236 | the low 32 bits of a number, or none, and the cursor is behind the value |
| Gguf.ReadEntries | crates/core/src/inspect.rs:174-205 | the loop over keys computes the fold of the list |
| Gguf.ReadMeta | crates/core/src/inspect.rs:162-205 | for every well-formed list of at most 4096 entries the reader stops at the end of the block with the meaning of the list |
| Gguf.WidthsAreKinds | crates/core/src/inspect.rs:277-285 | exactly the codes of the scalar kinds have a width, that of their kind |
| Gguf.CodesAreKinds | crates/core/src/inspect.rs:238-275 | strings and arrays are written under the codes of their kinds |
| Gguf.KnownKeys | crates/core/src/inspect.rs:181-186 | the keys of the six text fields |
| Gguf.KnownSources | crates/core/src/inspect.rs:187-196 | the three keys of the source address, and the key of the file type |
| Gguf.OtherKeys | crates/core/src/inspect.rs:180-198 | every other key is unknown |
| Gguf.LastTextWins | crates/core/src/inspect.rs:181-186 | the last entry for a text field decides: its text, or none when it is blank or no string |
| Gguf.LastNumberWins | crates/core/src/inspect.rs:194-196 | the last entry for the file type decides |
| Gguf.FirstSourceStays | crates/core/src/inspect.rs:187-193 | the first source address that has text stays |
| Gguf.NothingSaid | crates/core/src/inspect.rs:174-205 | a field without an entry that has text has none |
| Gguf.CountsByVersion | crates/core/src/inspect.rs:169-173 | counts are four bytes wide in version 1 and eight bytes since |
| Fences.LongestRun | crates/core/src/readme.rs:235-247 | the body has a run of the returned length and none longer |
| Fences.OpensIff | crates/core/src/readme.rs:196-216 | a line opens a fence exactly when, after at most three spaces, it has three or more backticks or tildes in a row, and behind backticks no other backtick |
| Fences.SpacesNeverOpen | crates/core/src/readme.rs:196-216 | a line of spaces opens none |
| Fences.ClosingLine | crates/core/src/readme.rs:218-222 | a closing line is a run of the mark, at least as long as the opening one, with white space around it |
| Fences.RunCloses | crates/core/src/readme.rs:218-222 | and every such line closes |
| Fences.FenceBody | crates/core/src/readme.rs:1036-1044 | the body is the lines up to the first that closes the fence |
| Fences.ParseFence | crates/core/src/readme.rs:1032-1048 | a fence line yields its code block and where scanning goes on |
| Fences.PrintFence | crates/core/src/readme.rs:224-233 | the fence is longer than any backtick run of the body |
| Fences.BodyStaysOpen | crates/core/src/readme.rs:218-222 | no line of a printed body closes its own fence |
| Fences.FenceEndsAfterBody | crates/core/src/readme.rs:1032-1048 | the body of a printed fence ends exactly at its closing line |
| Fences.PrintThenParse | crates/core/src/readme.rs:196-247 | printing a code body and parsing it returns body and tag for every list of lines |
| InlineCode.FindCodeClose | crates/core/src/readme.rs:1541-1555 | finds the first closing run of exactly the length asked for |
| InlineCode.PaddingIs | crates/core/src/readme.rs:1557-1564 | one space goes from both ends when both have one and the text is not all white space; any other text stays |
| InlineCode.BacktickSpan | crates/core/src/readme.rs:425-435 | the fence is longer than any backtick run of the body, and a blank body gives nothing |
| InlineCode.ReadBackticks | crates/core/src/readme.rs:1351-1367 | at a backtick, either a complete span up to the first closing run of the same length is read, or the run has no such closing run and stays literal |
| InlineCode.WalkInline | crates/core/src/readme.rs:1329-1367 | every text is cut into literals, kept verbatim and hiding no span, and code spans up to their first closing run, with nothing left out |
| InlineCode.OneReading | crates/core/src/readme.rs:1329-1367 | a text has only one such reading, so the walker's result is determined |
| InlineCode.SpanThenParse | crates/core/src/readme.rs:425-435 | printing and parsing returns a non-blank body exactly unless it has no backtick and a space at both ends; then one space a side is lost |
| ShareGate.Db.SetShareOverride | crates/core/src/db.rs:575-586 | a share choice keeps the confirmation |
| ShareGate.Db.ConfirmGatedShare | crates/core/src/db.rs:588-600 | confirming shares the blob |
| ShareGate.Db.ClearAllGatedConfirmations | crates/core/src/db.rs:602-620 | every confirmed row loses share and confirmation and is reported, with the cached copy's sha256 if there is one and its own otherwise; other rows stay |
| ShareGate.Db.DeleteCacheBlob | crates/core/src/db.rs:834-844 | deleting a blob forgets its share row |
| ShareGate.RowsFollowHistory | crates/core/src/db.rs:559-620 | a blob is confirmed exactly when some confirmation stands, and then shared exactly unless a later stop stands |
| ShareGate.GatedSharesOnlyWhenConfirmed | crates/core/src/db.rs:429-470 | over every history a blob of any gated or restrictive manifest is offered exactly when a confirmation stands and the latest choice is not stop, whatever the global flag and other manifests say |
| ShareGate.ChoicesFollowHistory | crates/core/src/db.rs:559-620 | a blob has a row exactly when a choice since its last deletion stands, and it says shared exactly when the latest decision, revocation of a standing confirmation included, was to share |
| ShareGate.OpenSharesByChoice | crates/core/src/db.rs:429-443 | over every history a blob that no gated or restrictive manifest lists is offered by the user's standing choice, and without one exactly when a manifest of public provenance lists it |
| TransferFlags.TransferControl.TryBegin | crates/core/src/transfer.rs:121-130 | refused exactly when a run is in progress, and then no flag changes |
| TransferFlags.TransferControl.RequestStop | crates/core/src/transfer.rs:98-102 | alone, a stop sets cancel and discard |
| TransferFlags.TransferControl.RequestPause | crates/core/src/transfer.rs:90-94 | alone, a pause sets cancel and clears discard |
| TransferFlags.OneRunAtATime | crates/core/src/transfer.rs:121-135 | in every interleaving of stores at most one run is between `try_begin` and `end` |
| TransferFlags.StopsAreSeenIff | crates/core/src/transfer.rs:89-130 | after the flags are cleared, no poll that sees cancel misses discard at the same or any later point while only stops are asked for, if and only if the admission was clean |
| TransferFlags.StopTakenForPause | crates/core/src/transfer.rs:98-130 | a stop that straddles an admission is seen as a pause |
| Uploads.ProviderEventSink.NoteStarted | crates/core/src/iroh_node.rs:466-473 | a new request opens a slot and counts it; a known one changes nothing |
| Uploads.ProviderEventSink.NoteProgress | crates/core/src/iroh_node.rs:475-497 | opens the slot if needed, then counts only forward distance |
| Uploads.ProgressMeans | crates/core/src/iroh_node.rs:475-497 | a slot's first offset sets its baseline and counts nothing; later the last offset never goes back, the bytes counted are its advance, and other slots keep their state |
| Uploads.ProviderEventSink.TakeOut | crates/core/src/iroh_node.rs:499-504 | the slot leaves the progress map, and the request awaits settlement |
| Uploads.ProviderEventSink.AddRemainder | crates/core/src/iroh_node.rs:505-514 | the first access of a finish adds the uncounted remainder |
| Uploads.ProviderEventSink.LowerActive | crates/core/src/iroh_node.rs:402-407 | the second lowers the active uploads, which are above zero |
| Uploads.ProviderEventSink.LowerHash | crates/core/src/iroh_node.rs:408-416 | the third lowers the count of the hash, which is above zero, and drops a zero entry |
| Uploads.ProviderEventSink.NoteFinished | crates/core/src/iroh_node.rs:499-516 | a live request closes with its contribution, an unknown one changes nothing |
| Uploads.FinishCounts | crates/core/src/iroh_node.rs:499-516 | ending a request adds what its final count exceeds the distance its offsets covered, and nothing without a final count |
| Uploads.ProviderEventSink.ConnectionClosed | crates/core/src/iroh_node.rs:543-557 | exactly the requests of the connection go, and no bytes are added |
| Uploads.ProviderEventSink.ReapStalled | crates/core/src/iroh_node.rs:520-538 | exactly the requests idle for too long go and are counted, and no bytes are added |
| Uploads.RunAgrees | crates/core/src/iroh_node.rs:421-557 | after every sequence of events, with the three accesses of a finish as separate events, all counters are what live, half-finished and closed requests say |
| Uploads.NoDecrementSaturates | crates/core/src/iroh_node.rs:402-416 | whatever came between, each decrement of a finish finds its counter above zero |
| Uploads.EverySequenceTallies | crates/core/src/iroh_node.rs:360-557 | active uploads are the live slots, per hash too, and the total is live bytes plus closed contributions, each the larger of the final count and last minus first offset |
| Planner.ScoreSource | crates/core/src/planner.rs:198-230 | the accumulated score is the sum of tier, class, health and Iroh terms |
| Planner.BetterHealthNeverLowers | crates/core/src/planner.rs:198-230 | more successes, fewer failures, fewer integrity failures or a lower latency never lower a score |
| Planner.SignalWeights | crates/core/src/planner.rs:198-230 | 30 between a perfect and a hopeless record with an unknown one in the middle, 50 for each integrity failure, a 200th per millisecond up to two seconds |
| Planner.ClassGaps | crates/core/src/platform.rs:156-165 | how far the classes are apart at equal health, on metered connections too |
| Planner.PreferencesRank | crates/core/src/planner.rs:235-262 | with at most one integrity failure, the preferred kind of source comes before every other and the disfavoured kind behind |
| Planner.OneFailureIsNotEnough | crates/core/src/planner.rs:160-165 | with at most one integrity failure, a source outranks every source of a lower tier |
| Planner.TiersDecideIff | crates/core/src/planner.rs:198-265 | tiers decide for all health figures if and only if the preferred source has at most one integrity failure |
| Planner.PlanArtifact | crates/core/src/planner.rs:101-153 | refused and banned sources are excluded; the others are sorted by descending score, ties in manifest order |
| Planner.SelectSplits | crates/core/src/planner.rs:101-153 | eligible and excluded sources together are the sources, none lost or duplicated |
| Planner.EligibleIff | crates/core/src/planner.rs:101-153 | a source is eligible exactly when the policy allows it and no ban is active |
| Planner.PlanByTiers | crates/core/src/planner.rs:101-165 | in a plan whose sources have at most one integrity failure, tiers never mix |

## Left out

- Hash and signature internals, bao range decoding: hashing is symbolic, and a range fetch that
  succeeds is taken to write the blob's bytes of its range, one that fails only correct bytes inside it.
- HTTP, QUIC, BitTorrent, the tracker, timers, rate limits and stall watchdogs: a server may
  answer anything, and a timeout is one of the failures it may answer.
- I/O errors of the file system and the database: completed writes persist in order. A journal
  header or line that cannot be written, which the source ignores, and a journal that cannot be
  opened are not modelled. A removal that overlaps a new run leaves the files of one that follows it.
- SkipIsHonestIff: sizes below 2^64; within 1 KiB of that limit the source's chunk arithmetic on
  64-bit integers would overflow, which the model's unbounded integers do not show.
- ResumedFetchIsTheBlob: careful rounds only, because otherwise a run may skip a piece without bytes
  (Forgery, StaleJournalSkips); NoPieceLeftMeansBlob holds whatever came before, given that the
  skipped pieces are correct.
- TryAcquire: the semaphore is a counter; notifications are events of the state machine, not a
  field of the class. Waiting transfers have distinct ids, and `notify_waiters` wakes every
  notified future created before it.
- StreamOnce: whether somebody cancels, and whether the temp file can be read back, are constants of
  the artifact (`calm`, `readable`); a cancel may then come at any point. Errors of opening and
  writing the temp file are left out.
- TrySource, DownloadArtifact: candidates come with all their answers, so that an answer does not
  depend on the offset asked for; recording health, sleeping
  between attempts and the quarantine directory are left out. A quarantined temp file is gone.
- DownloadArtifact: zeros that `set_len` or a write past the end puts into the temp file count as
  the current source's, whose offset caused them.
- CanonicalPayload: characters instead of UTF-8 bytes, an unbounded timestamp, and the library
  sort as the sorted list that an insertion sort gives. Signature checking is left out.
- ReadMeta: which texts are blank is a parameter, and lossy UTF-8 decoding and the label table of
  quantisations are left out. Nested arrays are outside the well-formed lists, as the reader rejects them.
- ParseFence: the fence branch only. The placeholder pass of `extract_fenced_blocks` and all
  HTML lowering are left out.
- WalkInline: the backtick branch only; every other character is literal, and escapes, emphasis and
  links are left out.
- GatedSharesOnlyWhenConfirmed: manifests are given by their gating, restriction and provenance flags.
- OneRunAtATime: `reset` is not an event, and the state label under its mutex is not interleaved.
- RunAgrees: a start's two increments, made under the lock of the progress map, are one step.
- ReapStalled: how long each request has been idle is given by the caller; there is no clock.
- PlanArtifact: policy answers and active bans are given with each source, so the ban clock is
  left out. ScoreSource is over reals, and the capped logarithm of the peer count is a parameter from 0 to 15.
- Update manifests, version comparison, paths, secrets and all user interfaces: plumbing.
