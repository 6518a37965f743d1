# File transfer: chunk assembly, backends, client, and datagram transport

A model of the parts of this repository that move files about, with proofs of what they are for: chunks that arrive
out of order, overlapping or twice rebuild exactly one file; backends account for it and store it; the client cuts a
stream up and gets it back; and, below that, packets are framed, numbered, acknowledged and retransmitted.

| file | module | what it models |
|---|---|---|
| `Common.dfy` | `Common`, `MapSums` | bytes, outcomes, concatenation, sums over maps |
| `IntervalUnion.dfy` | `Intervals` | the sorted interval list, edited in place |
| `Slices.dfy` | `Slices` | the sorted slice index kept beside an interval list, for any kind of value |
| `BytesIntervalUnion.dfy` | `ByteUnion` | the chunk assembler: interval list and slice index together |
| `InMemBackend.dfy` | `InMem` | files by hash, unfinished uploads by placeholder, the two size counters |
| `SqlBackend.dfy` | `Sql` | slices as row numbers, a running counter, commits that may fail |
| `S3Backend.dfy` | `FixedChunk`, `S3` | chunks of a fixed size as numbered parts of a multipart upload |
| `FilerClient.dfy` | `Client` | re-chunking, upload, download, round trip |
| `UploadQueue.dfy` | `UploadQueue` | uploads waiting for cache space |
| `ServerChain.dfy` | `ServerChain` | writing to a faster and a slower server together |
| `Registry.dfy` | `Registry` | hashes and identifiers, paged listing, dump and load |
| `EntryTree.dfy` | `EntryTree` | the adjacency map of a stored tree, subtree deletion |
| `Serialization.dfy` | `Serialization` | self-delimiting integers, byte strings, TLVs, objects |
| `Fragments.dfy` | `Fragments` | cutting a packet stream into fragments and putting it together |
| `Congestion.dfy` | `Congestion` | congestion window, retransmission timer, window gate |
| `Wire.dfy` | `Wire` | the two datagram formats |
| `Sender.dfy` | `Sender` | the sliding-window sender as interleaved steps |
| `SlidingWindow.dfy` | `SlidingWindow` | receiver, network and sender together |
| `Statistics.dfy` | `Statistics` | running means and variances |

How things are modelled:

- An operation is a function from the old state to the new one and the answer. Where the program changes an object
  in place, a class has the program's fields and loops, and each of its methods is proved equal to that function; the
  properties are then proved about the function, over all runs.
- A sorted container is a list kept sorted; a dictionary is a map. What the program raises is a value of an error type.
- Tasks that interleave (producer, ack handling, one watchdog per packet, receiver, handlers) are one state machine; a
  step is the code between two points at which the program can be suspended. The network loses, repeats and reorders:
  whatever was put on it may be delivered at any later time, any number of times, or never.
- Hash functions, server answers, commits, row numbers, identifiers, arrival order and time are parameters and may be
  anything. Real numbers stand for floating point.
- The readers in `Serialization` are reference definitions: they say what it means that an encoding can be told apart
  from whatever follows it.

Where the code does not do what one might expect of it, the proofs say exactly when it does:

- A chunk at a negative offset makes a complete upload unreadable (`ByteUnion.CompleteReadable`).
- Bytes at negative offsets are held on top of the announced size (`InMem.HeldWithin`, `InMem.OneMoreChunk`); the size
  counters do not notice (`InMem.HeldBeyond`). With a negative size accepted the maximal size can fall below the current
  one or rise above the limit (`InMem.NegativeSize`); what it exactly is, is `InMem.RunBalanced`.
- In-memory room is given back only by cancelling through the placeholder; deleting a file, finishing incomplete, and
  finishing never free any (`InMem.RoomIsNeverReturned`). An upload of which the backend comes to refuse a piece leaves
  its placeholder and room behind, and no other failing upload does; lengths and settings tell beforehand which it is
  (`Client.HandleUpload` with `Client.Refuses`, `Client.RefusesOnlyLong`, `Client.EightRefused`).
- A failed commit rolls rows back after slices have been dropped, so the SQL counter may say complete when it is not
  (`Sql.CounterExact`, `Sql.FailedCommitFoolsCounter`); rows are then left over (`Sql.OrphansExactly`), and a cut file can
  be stored as complete (`Sql.StoresFile`, `Sql.CutFileStored`). Only the first 16 MiB of a finished file enter its hash, and
  an empty file is always refused (`Sql.StoresFile`).
- An empty chunk at the very end counts as a part (`FixedChunk.CountTest`), and a short last part is accepted although
  bytes are missing (`FixedChunk.JoinedParts`).
- `failure_for` on an upload that still waits, which `_wait_for_cache_ready`
  (`filer/filer_client/filer_backend_client.py:374-387`) does when its time runs out, leaves the upload queued and
  marked as failed (`UploadQueue.FinishKeepsExactly`); admitted later, it takes its space until
  its end is reported again (`UploadQueue.FailureLasts`). With negative sizes more than the total can be taken (`UploadQueue.BelowExactly`).
- A watchdog looks its packet up and removes it in two steps; an ack in between makes one permit be released twice
  (`Sender.PermitReleasedTwice`), and the gate then admits more than the window (`Sender.WindowOvershot`), never less.
  The count is exact all the time exactly when no watchdog that finds its packet gone releases a permit while one is
  counted (`Sender.PermitsExact`).
- Packet numbers from 2^32 on cannot be encoded: their `send` raises and leaves them in flight without a watchdog.
  Once the watchdogs have returned, and their steps can always bring that about, the flight is empty exactly when that
  number has not been reached (`SlidingWindow.LastNumber`, `SlidingWindow.DrainExactly`, `SlidingWindow.DrainEnds`).
  Once such packets hold all permits, `send` waits for ever (`Sender.NoDeadlock`, `Sender.StuckWindow`).
- Fast recovery keeps the window within its maximum only if that is at least two packets
  (`Congestion.DupAckWithinMaximum`).
- Deletion in a stored tree ends exactly when the node is not its own parent, as a root may be
  (`EntryTree.DeletionEnds`). For such a root it raises, or goes on for ever if the root is protected and alone
  (`EntryTree.OwnParentRaises`, `EntryTree.OwnParentKept`, `EntryTree.OwnParentLoops`).
- Loading a dump needs an identifier for every item, and forgets identifiers of items deleted before
  (`Registry.InMemRegistry.Load`, `Registry.LoadedAnswersAlike`).
- The write chain ignores how the servers answer a terminate: a placeholder can be successful although both failed to
  finish (`ServerChain.SuccessWithNothingFinished`). It is finished in full exactly when a server taking part answered
  its terminate well (`ServerChain.SuccessIsFinished`).

## Model

| member | source | states |
|---|---|---|
| Intervals.FilledIsCardinality | filer/filer_backend/interval_union.py:116-118 | the filled size is the number of points covered, empty intervals included in the list or not |
| Intervals.MergePoints | filer/filer_backend/interval_union.py:14-35 | `add` is set union with [start, end) |
| Intervals.MergeSeparated | filer/filer_backend/interval_union.py:14-35 | `add` keeps the list sorted with gaps between intervals, and free of empty ones if the added one is not empty |
| Intervals.AbsorbedAre | filer/filer_backend/interval_union.py:14-35 | what `add` returns are the intervals that meet the added one, touching included, in their order |
| Intervals.CutPoints | filer/filer_backend/interval_union.py:37-69 | `delete` is set difference with [start, end) |
| Intervals.CutSeparated | filer/filer_backend/interval_union.py:37-69 | after `delete` the intervals stay apart exactly when start < end or no interval is cut at a single point |
| Intervals.ClipPoints | filer/filer_backend/interval_union.py:71-84 | `intersect` is set intersection with [start, end) |
| Intervals.ClipSeparated | filer/filer_backend/interval_union.py:71-84 | what `intersect` returns is again sorted with gaps |
| Intervals.HolesPoints | filer/filer_backend/interval_union.py:86-110 | `intersect_difference` is [start, end) without the covered points, as a sorted list of non-empty, separate intervals |
| Intervals.CanonicalUnique | filer/filer_backend/interval_union.py:10-35 | two lists of separate non-empty intervals that cover the same points are the same list |
| Intervals.AddOrderIrrelevant | filer/filer_backend/interval_union.py:14-35 | non-empty adds in any order and with any repetition give the identical list |
| Intervals.IntervalUnion.Add | filer/filer_backend/interval_union.py:14-35 | the bisect and merge loop computes the union and returns the intervals absorbed; it refuses start > end and then changes nothing |
| Intervals.IntervalUnion.Delete | filer/filer_backend/interval_union.py:37-69 | the scan computes the difference and returns the parts taken away, and keeps the invariant exactly when nothing is cut at a single point |
| Intervals.IntervalUnion.Intersect | filer/filer_backend/interval_union.py:71-84 | a fresh list with the intersection; the receiver is unchanged |
| Intervals.IntervalUnion.IntersectDifference | filer/filer_backend/interval_union.py:86-110 | a fresh list with the holes, early return included; it refuses start > end |
| Slices.UploadConsistent | filer/filer_backend/interval_union_bytes.py:16-34 | an upload keeps slices non-empty, disjoint and tiling exactly the covered points, and covers exactly its range in addition |
| Slices.UploadGrowth | filer/filer_backend/interval_union_bytes.py:24-34 | the value returned is the exact number of points gained, though slices are dropped and refilled on the way |
| Slices.UploadSliceAt | filer/filer_backend/interval_union_bytes.py:17-33 | which slice holds a point after an upload: the old one unless it lay whole within the range, else a new one of this upload |
| Slices.SameBooksUpload | filer/filer_backend/interval_union_bytes.py:26-34 | keys and returned value do not depend on what is stored under the keys |
| ByteUnion.Provenance | filer/filer_backend/interval_union_bytes.py:16-34 | after any calls, each byte held was supplied at that very position by one of the calls (the call is named) |
| ByteUnion.MarkProvenance | filer/filer_backend/interval_union_bytes.py:27-33 | where data is not stored, the slice that holds a point is marked with the index of a call that names it, or with its own length if that gave none |
| ByteUnion.IndicesInOrder | filer/filer_backend/interval_union_bytes.py:40-48 | the indices read back are those of the marks, one each, in order |
| ByteUnion.RunPoints | filer/filer_backend/interval_union_bytes.py:16-34 | after any calls, a point is covered exactly when some call that did not raise names it |
| ByteUnion.PiecesCover | filer/filer_backend/interval_union_bytes.py:40-48 | reading the slices succeeds exactly when they cover one stretch from the given position |
| ByteUnion.CompleteReadable | filer/filer_backend/interval_union_bytes.py:36-48 | a complete upload can be read exactly when no non-empty chunk lay at a negative offset |
| ByteUnion.NegativeOffsetUnreadable | filer/filer_backend/interval_union_bytes.py:36-48 | one chunk at offset -1 makes a one-byte upload complete and unreadable |
| ByteUnion.RebuildsFile | filer/filer_backend/interval_union_bytes.py:16-48 | chunks of one file in any order, overlapping, repeated or empty: once complete, reading succeeds and yields exactly the file |
| ByteUnion.ReturnsAddUp | filer/filer_backend/interval_union_bytes.py:34-38 | the returns of a run add up to the filled size, so complete means that the sum is the total size |
| ByteUnion.TwinRuns | filer/filer_backend/interval_union_bytes.py:27-34 | with and without stored data, the same ranges give the same keys, the same returns and the same completeness |
| ByteUnion.BytesIntervalUnion.UnionFrom | filer/filer_backend/interval_union_bytes.py:16-34 | the loops over both structures do what the step function says, raise beyond the end without changing anything, and keep both in agreement |
| ByteUnion.BytesIntervalUnion.CompleteDataGen | filer/filer_backend/interval_union_bytes.py:50-56 | the generator yields the values of the longest front of the slices that can be read, and raises exactly when that is not all of them |
| ByteUnion.BytesIntervalUnion.CompleteData | filer/filer_backend/interval_union_bytes.py:40-48 | the joined bytes, or the list of slice indices when data is not stored |
| InMem.RunBalanced | filer/filer_backend/backend_impl_inmem.py:69-127 | in every run, whatever the offsets and sizes, the current size is exactly that of the files stored and of those replaced, and the maximal size exactly the current size, the sizes announced, and those of uploads dropped incomplete and of files deleted |
| InMem.RunAccounted | filer/filer_backend/backend_impl_inmem.py:69-127 | in every run every stored file hashes to its key and no placeholder holds a byte past its end; and unless a negative size was accepted, stored bytes plus announced sizes <= current size plus announced sizes <= maximal size <= allowed memory |
| InMem.NegativeSize | filer/filer_backend/backend_impl_inmem.py:69-127 | two runs with a negative size accepted: the maximal size ends below the current one, and above the limit |
| InMem.HeldWithin | filer/filer_backend/backend_impl_inmem.py:87-106 | after any run what is held for a placeholder lies within its file exactly when no chunk accepted since it was prepared put bytes before the start |
| InMem.HeldAccounted | filer/filer_backend/backend_impl_inmem.py:69-127 | in every run in which no negative size was accepted and no open placeholder has such bytes, bytes held also stay within what was announced and counted |
| InMem.OneMoreChunk | filer/filer_backend/backend_impl_inmem.py:87-106 | the whole file, sent once more, makes a placeholder hold more than its size exactly when it does have such bytes |
| InMem.HeldBeyond | filer/filer_backend/backend_impl_inmem.py:87-106 | a run in which a placeholder of one byte holds two |
| InMem.RoomIsNeverReturned | filer/filer_backend/backend_impl_inmem.py:69-127 | in every run, whatever the offsets and sizes, the maximal size is the sum of all accepted announcements less those cancelled through their placeholder; it is within the limit unless a negative size was accepted |
| InMem.UploadAnswers | filer/filer_backend/backend_impl_inmem.py:87-106 | after any run a chunk is answered with the number of points its placeholder gains; a placeholder that is not there and a start past the end are refused and change nothing, too many parts are refused with the chunk taken in |
| InMem.AnswersAddUp | filer/filer_backend/backend_impl_inmem.py:87-113 | where no chunk was refused for too many parts since the prepare, the answers add up to the bytes held, and the upload is complete exactly when they add up to its announced size |
| InMem.PrepareAnswers | filer/filer_backend/backend_impl_inmem.py:69-85 | a prepare is refused, with the room left, exactly when the announcements accepted and not cancelled leave too little, and then for a placeholder in use |
| InMem.TerminateAnswers | filer/filer_backend/backend_impl_inmem.py:108-113 | an upload not whole is dropped in silence; one whole in number but not as one stretch, or with another hash, is refused and kept; otherwise exactly the bytes held are stored |
| InMem.DeleteAnswers | filer/filer_backend/backend_impl_inmem.py:119-127 | which cancellations and deletions go through, and that a cancellation answered with an error about a stored file has gone through |
| InMem.InMemBackend.PreparePlaceholder | filer/filer_backend/backend_impl_inmem.py:69-85 | refused for lack of room first, then for a placeholder in use; else an empty upload and the room is reserved |
| InMem.InMemBackend.UploadChunkAt | filer/filer_backend/backend_impl_inmem.py:87-106 | the chunk is taken in even when too many parts make the call raise |
| InMem.InMemBackend.UploadTerminate | filer/filer_backend/backend_impl_inmem.py:108-113 | an incomplete upload is dropped silently, a wrong hash raises and keeps the placeholder, a good one stores the file |
| InMem.InMemBackend.DeleteResource | filer/filer_backend/backend_impl_inmem.py:119-127 | cancelling gives the room back, deleting a file does not; unknown ones raise and change nothing |
| Client.RechunkConcat | filer/filer_client/filer_backend_client.py:247-270 | the pieces sent join to the stream, for any chunks, chunk size and flags |
| Client.RechunkSizes | filer/filer_client/filer_backend_client.py:247-270 | no piece too big unless allowed; none too small unless allowed, but for the last |
| Client.ShortAsTheyCome | filer/filer_client/filer_backend_client.py:247-250 | with smaller pieces allowed, chunks all shorter than the chunk size are sent exactly as they come |
| Client.AsTheyCome | filer/filer_client/filer_backend_client.py:247-255 | with smaller and bigger pieces allowed all chunks are |
| Client.OneChunk | filer/filer_client/filer_backend_client.py:247-255 | what one chunk makes of the bytes held: sent whole, held back, or cut into full pieces with the rest held, for all lengths and flags |
| Client.CallsAgree | filer/filer_client/filer_backend_client.py:240-245 | pieces sent at the running offset carry the bytes of the stream at their place |
| Client.OneInterval | filer/filer_client/filer_backend_client.py:240-245 | contiguous pieces always leave one single interval, cut at the announced size |
| Client.SentAll | filer/filer_client/filer_backend_client.py:247-291 | a stream of the announced length sent in full is complete and reads back as itself |
| Client.HandleUpload | filer/filer_client/filer_backend_client.py:234-291 | the upload goes through exactly when there is room, length and hash are as announced and one part is allowed; the stored file then is the stream. It leaves its placeholder and room behind, and nothing else, exactly when it was let in and the backend comes to refuse a piece of the stream, as can be told from lengths and settings beforehand; any other failing upload changes nothing. Which error is raised is told beforehand, too |
| Client.ExceedsMeans | filer/filer_client/filer_backend_client.py:257-266 | the client gives up in the middle only when more than announced has been sent, and never reports more than the stream holds |
| Client.RefusesOnlyLong | filer/filer_client/filer_backend_client.py:244-268 | with parts allowed and an announced size that is not negative, a stream of which a piece is refused exceeds its announced size by more than a chunk size, has a chunk longer than that (it is named), and bigger pieces are not allowed |
| Client.RefusesWithoutParts | filer/filer_client/filer_backend_client.py:244-273 | with no part allowed and an announced size that is not negative, a piece is refused exactly when there is one |
| Client.NegativeRefused | filer/filer_client/filer_backend_client.py:247-257 | with a negative announced size a piece is refused exactly when the first chunk makes one to be sent |
| Client.OneChunkRefused | filer/filer_client/filer_backend_client.py:255-257 | for a stream of one chunk in full pieces: refused exactly when the last full piece starts past the announced size |
| Client.EightRefused | filer/filer_client/filer_backend_client.py:255-257 | three bytes announced and pieces of four: eight bytes in one chunk are refused, seven are not |
| Client.WindowsConcat | filer/filer_client/filer_backend_client.py:308-326 | windows of any size join to the file and only the last is short |
| Client.HandleDownload | filer/filer_client/filer_backend_client.py:308-343 | a download in steps of any size yields the file, and complains exactly when its hash is wrong; its length checks never fire |
| Client.RoundTrip | filer/filer_client/filer_backend_client.py:234-343 | whatever the chunks, chunk size, flags and download step, the download ends without an error and what comes back joins to what was sent |
| Sql.LookDropWhole | filer/filer_backend/backend_impl_sql.py:146-152 | deleting slices and their rows leaves, seen through the rows, what the chunk assembler keeps |
| Sql.LookWithAll | filer/filer_backend/backend_impl_sql.py:154-168 | adding rows and pointing slices at them adds, seen through the rows, the new pieces; row numbers stay distinct and no row is orphaned |
| Sql.CommittedStep | filer/filer_backend/backend_impl_sql.py:132-170 | a committed chunk does to the rows what the chunk assembler does to its slices, returns the same, and counts exactly the bytes gained |
| Sql.RunRefines | filer/filer_backend/backend_impl_sql.py:132-170 | after any run of committed chunks the rows hold the assembler's slices, none is left over, and the counter is the filled size |
| Sql.FailedStep | filer/filer_backend/backend_impl_sql.py:146-165 | a failed commit leaves rows and counter, but the slices dropped before it stay dropped |
| Sql.CounterExact | filer/filer_backend/backend_impl_sql.py:146-170 | over any run the counter is never below the filled size, and equals it exactly when no failed commit had dropped a slice |
| Sql.FailedCommitFoolsCounter | filer/filer_backend/backend_impl_sql.py:146-170 | any file sent whole and again with a failing commit: counter complete, nothing covered |
| Sql.OrphansExactly | filer/filer_backend/backend_impl_sql.py:146-179 | after any run there are rows no slice points at, which the clean-up by slices does not reach, exactly when some failed commit dropped a slice |
| Sql.StoresFile | filer/filer_backend/backend_impl_sql.py:181-216 | with chunks of one file, whichever commits fail, a terminate stores something exactly when the counter is full, what is covered is a non-empty front of the file, its first 16 MiB have the expected hash, and the terminate commits; it then stores that front, which is the whole file exactly when no failed commit dropped a slice |
| Sql.TerminateAnswers | filer/filer_backend/backend_impl_sql.py:181-216 | every answer of a terminate for chunks of one file, whichever commits fail: nothing, a gap, an empty upload, a wrong hash, a failed commit, or the front of the file |
| Sql.StoresWhole | filer/filer_backend/backend_impl_sql.py:181-216 | while no failed commit has dropped a slice, a terminate stores exactly the file, and does so exactly when all of it has come, it is not empty, its first 16 MiB have the expected hash, and the terminate commits; an incomplete one is dropped without error |
| Sql.StoresCommitted | filer/filer_backend/backend_impl_sql.py:132-216 | so it is in every run of committed chunks, complete meaning what the chunk assembler means by it |
| Sql.CutFileStored | filer/filer_backend/backend_impl_sql.py:146-216 | for every file longer than 16 MiB and every hash function, a run of agreeing chunks with one failing commit after which a terminate stores a cut file |
| Sql.SqlUpload.UploadChunkAt | filer/filer_backend/backend_impl_sql.py:132-170 | the three loops and the commit between them do what the step function says |
| Sql.SqlUpload.CheckFinal | filer/filer_backend/backend_impl_sql.py:181-216 | rows joined in slice order, a gap refused, the hash taken of the front |
| FixedChunk.PartPlace | filer/filer_backend/fixed_chunk_constraint.py:5-30 | an accepted chunk is a part of the file, of the fixed size unless it lies in the short end, or an empty part just after the last |
| FixedChunk.AcceptedExactly | filer/filer_backend/fixed_chunk_constraint.py:5-30 | which chunks are taken in and as which part, and how each other one is refused |
| FixedChunk.TableOk | filer/filer_backend/backend_impl_s3.py:138-151 | every part in the table lies in its place after any run of accepted and rejected chunks |
| FixedChunk.CountTest | filer/filer_backend/backend_impl_s3.py:167-178 | counting parts decides whether all are there exactly when no empty part past the end is held or the count is still short, whatever the announced size |
| FixedChunk.NonEmptyChunks | filer/filer_backend/backend_impl_s3.py:138-178 | after any run of non-empty chunks the count test holds exactly when every part is present |
| FixedChunk.EmptyChunkFoolsCount | filer/filer_backend/backend_impl_s3.py:167-178 | an empty chunk at the end makes the count right while a part is missing |
| FixedChunk.JoinedParts | filer/filer_backend/backend_impl_s3.py:188-195 | parts carrying a file's bytes join to a front of it, and to all of it exactly when the short last part was given in full |
| FixedChunk.ShortLastPart | filer/filer_backend/fixed_chunk_constraint.py:22-30 | a last part cut short is accepted and counted, and the joined object is not the file |
| FixedChunk.ClientUpload | filer/filer_client/filer_backend_client.py:247-270 | with neither smaller nor bigger chunks allowed every piece of a stream of the announced length is accepted, all parts are there, and they join to the stream |
| S3.S3Backend.Prepare | filer/filer_backend/backend_impl_s3.py:105-126 | refused for a stored object, then for a key already uploading; at most one upload per key |
| S3.S3Backend.UploadChunkAt | filer/filer_backend/backend_impl_s3.py:128-152 | an accepted chunk becomes the part at offset / chunk size; a rejected one changes nothing |
| S3.S3Backend.UploadTerminate | filer/filer_backend/backend_impl_s3.py:154-201 | the upload is forgotten in any case, and stored as the joined parts exactly when count and presence are right and the service accepts the list of parts |
| S3.S3Backend.DeleteResource | filer/filer_backend/backend_impl_s3.py:211-223 | an unfinished upload is forgotten with its parts, its announced size and its place among the current uploads; deleting a stored object touches none of them; unknown ones raise and change nothing |
| UploadQueue.RunKeeps | filer/filer_client/filer_backend_client.py:53-93 | in every run of proper calls, whatever the sizes, each upload is in exactly one place that agrees with its record and event, the space taken is that of the uploads in progress, and nothing that waits fits |
| UploadQueue.BelowExactly | filer/filer_client/filer_backend_client.py:50-93 | in every run of proper calls the space taken is below the total all the time, while any upload is in progress, exactly when no upload ends whose (negative) size leaves the others taking the total or more |
| UploadQueue.NoneNegative | filer/filer_client/filer_backend_client.py:50-93 | so it is in every run of proper calls without negative sizes |
| UploadQueue.NegativeUpload | filer/filer_client/filer_backend_client.py:50-93 | a run with a negative size after which more than the total is taken |
| UploadQueue.FinishKeepsExactly | filer/filer_client/filer_backend_client.py:79-93 | reporting an end keeps all that exactly for an upload that is in progress, unknown, or already has that end |
| UploadQueue.FailureWhileWaiting | filer/filer_client/filer_backend_client.py:79-85 | an upload reported as failed while it waits is marked failed and stays queued |
| UploadQueue.Lasts | filer/filer_client/filer_backend_client.py:53-93 | an upload in progress stays so, its size among the space taken, and one that waits stays or comes to be in progress, through every run, proper or not, in which its end is not reported |
| UploadQueue.FailureLasts | filer/filer_client/filer_backend_client.py:53-93 | so an upload reported as failed while it waits is admitted later, and takes its space for as long as its end is not reported again |
| UploadQueue.NothingInProgress | filer/filer_client/filer_backend_client.py:50-67 | with nothing in progress only uploads too big for the whole space wait |
| UploadQueue.FirstAreSmallest | filer/filer_client/filer_backend_client.py:53-64 | no k waiting uploads need less space than the first k |
| UploadQueue.AdmitsTheMost | filer/filer_client/filer_backend_client.py:53-67 | resolving admits at least as many uploads as a set of waiting ones that fits together, exactly when the set is empty or the first upload fits |
| UploadQueue.FirstFits | filer/filer_client/filer_backend_client.py:50-67 | the first does fit if any such set does, when room is left or no waiting size is negative |
| UploadQueue.AdmittedExactly | filer/filer_client/filer_backend_client.py:53-67 | resolving admits the first waiting uploads, as many as leave the space taken below the total one after the other, and no more |
| UploadQueue.WaitInOrder | filer/filer_client/filer_backend_client.py:53-71 | those that wait stand by size, and those of one size by locator |
| UploadQueue.AnswersExactly | filer/filer_client/filer_backend_client.py:69-93 | an upload is queued exactly if its locator is not known, and its end goes through exactly if it is in progress |
| UploadQueue.NoneOfThree | filer/filer_client/filer_backend_client.py:50-67 | three uploads of negative size that fit together while none is admitted |
| UploadQueue.QueueStateHandler.ResolveQueued | filer/filer_client/filer_backend_client.py:53-67 | the loop with its early exit admits from the front while the front fits |
| UploadQueue.QueueStateHandler.Intent | filer/filer_client/filer_backend_client.py:69-77 | a known locator is refused; a new one is queued by size and the queue resolved |
| UploadQueue.QueueStateHandler.FinishFor | filer/filer_client/filer_backend_client.py:79-93 | success and failure alike, the status being set before the look-up that may raise |
| ServerChain.RunKeeps | filer/filer_backend_with_registry/server_chain.py:49-144 | in every run no placeholder is both aborted and successful, a server still taking part has accepted exactly the acknowledged chunks, a successful placeholder has such a server and an aborted one has none |
| ServerChain.AcknowledgedIsHeld | filer/filer_backend_with_registry/server_chain.py:86-117 | after an acknowledged chunk some server takes part, and each one that does holds every chunk acknowledged since the last prepare |
| ServerChain.SuccessIsHeld | filer/filer_backend_with_registry/server_chain.py:119-144 | what a successful placeholder acknowledged has been accepted in full by one of the servers |
| ServerChain.TerminateAcknowledged | filer/filer_backend_with_registry/server_chain.py:119-144 | after any run a terminate is acknowledged exactly for a prepared, unfinished placeholder with a server taking part, however the servers answer |
| ServerChain.TerminateFinishes | filer/filer_backend_with_registry/server_chain.py:126-144 | after an acknowledged terminate a server has finished all acknowledged chunks exactly when one taking part answered it well |
| ServerChain.SuccessIsFinished | filer/filer_backend_with_registry/server_chain.py:119-144 | every successful placeholder goes back to one terminate of the run, and stays finished in full exactly when a server then taking part answered it well |
| ServerChain.SuccessWithNothingFinished | filer/filer_backend_with_registry/server_chain.py:126-144 | a run that ends successful although both servers failed to finish |
| ServerChain.TerminalForGood | filer/filer_backend_with_registry/server_chain.py:49-53 | an aborted or successful placeholder stays as it is through any run, and every operation on it is refused |
| ServerChain.FlagsOnlyFall | filer/filer_backend_with_registry/server_chain.py:86-110 | between prepares a server that dropped out stays out |
| ServerChain.ReportedIsWritten | filer/filer_backend_with_registry/server_chain.py:117-117 | the number of bytes reported is one of the answers and no more than any server that wrote something wrote |
| ServerChain.TakesPartExactly | filer/filer_backend_with_registry/server_chain.py:49-144 | after any run a server takes part exactly when it went along with the last prepare and has answered every chunk since; a placeholder is aborted exactly when a chunk or a terminate found no server to answer, and successful exactly when a terminate found one |
| ServerChain.UploadAnswers | filer/filer_backend_with_registry/server_chain.py:86-117 | a chunk is acknowledged exactly when its placeholder has been begun, is not over, and some server taking part answers; and with which number, or how it is refused |
| ServerChain.OtherAnswers | filer/filer_backend_with_registry/server_chain.py:55-75 | a prepare goes through exactly when the placeholder is not over and one of the servers goes along; a terminate when it has been begun, is not over, and some server takes part |
| ServerChain.FilerServerChain.PreparePlaceholder | filer/filer_backend_with_registry/server_chain.py:55-75 | flags are set even when both servers refuse and the call raises |
| ServerChain.FilerServerChain.UploadChunkAt | filer/filer_backend_with_registry/server_chain.py:86-117 | only servers taking part are asked; the placeholder is aborted when none is left |
| ServerChain.FilerServerChain.UploadTerminate | filer/filer_backend_with_registry/server_chain.py:119-144 | aborted when no server takes part, successful otherwise, whatever the two servers answer |
| Registry.RunKeeps | filer/filer_common/registry_inmem.py:69-109 | in every run live hashes and identifiers match one to one, the listing lists the live hashes in order, deleted ones are not live, and metadata and sizes go with them |
| Registry.BlankKeeps | filer/filer_common/registry_inmem.py:29-46 | so it is in every run of a registry that starts out empty |
| Registry.UlidsDiffer | filer/filer_common/registry_inmem.py:36-38 | two live items never share an identifier |
| Registry.RecordsWhatWasGiven | filer/filer_common/registry_inmem.py:69-109 | after any run metadata, size and identifier of a live item are those of the last `New` of it that went through, or the first registry's; what is kept of deleted ones, which are deleted, and which identifiers are issued, is likewise what the operations say |
| Registry.AnswersAsGiven | filer/filer_common/registry_inmem.py:69-109 | how a run answers every operation: a refusal for a live hash names the identifier it was given |
| Registry.IssuedResolves | filer/filer_common/registry_inmem.py:48-49 | an identifier goes on naming its hash for the rest of the run |
| Registry.WalkListsEachOnce | filer/filer_common/registry_inmem.py:111-125 | following the pages with any limit, as long as more are announced, lists every live item once and nothing else |
| Registry.PageExactly | filer/filer_common/registry_inmem.py:111-118 | a page is the stretch asked for, cut at the end, with the number of all and whether more follow; which bounds raise |
| Registry.DumpThenLoad | filer/filer_common/registry_fs.py:78-108 | loading a dump gives a consistent registry with the same metadata, identifiers, sizes, deleted set and listing, knowing no identifier the first did not |
| Registry.LoadedItems | filer/filer_common/registry_inmem.py:32-42 | an item whose size is not told is loaded with size -1; identifiers and sizes of other hashes are dropped |
| Registry.LoadedAnswersAlike | filer/filer_common/registry_fs.py:78-108 | a loaded registry answers every later run as the dumped one would, exactly when the run issues no identifier of an item deleted before the dump |
| Registry.StaleUlid | filer/filer_common/registry_inmem.py:80-88 | such an identifier is refused before and accepted after a reload |
| Registry.InMemRegistry.Load | filer/filer_common/registry_inmem.py:29-46 | loading succeeds exactly when every item has an identifier, no two share one, and neither identifiers nor sizes come without a metadata dictionary; which of these fails first is what is raised |
| Registry.InMemRegistry.NewItem | filer/filer_common/registry_inmem.py:69-96 | all indexes and the list of all hashes are updated together, or none when hash or identifier is taken |
| Registry.InMemRegistry.DeleteItem | filer/filer_common/registry_inmem.py:98-109 | the item leaves the live indexes; metadata and size go too unless they are kept |
| Registry.InMemRegistry.ListItems | filer/filer_common/registry_inmem.py:111-125 | one page of metadata in hash order; a bad offset or limit raises, and no look-up can fail |
| EntryTree.LoadedForest | filer/filer_common/registry_db_model/model_tree.py:159-176 | loading rows that are acyclic but for roots that are their own parents gives a forest that lists exactly the rows, each under its parent and nowhere else |
| EntryTree.LoadedInOrder | filer/filer_common/registry_db_model/model_tree.py:159-176 | whatever the rows, there is a list for every parent and every entry, with the entries of that parent in the order of the rows |
| EntryTree.AddedForest | filer/filer_common/registry_db_model/model_tree.py:205-225 | a new child keeps the forest, also under a number that was used and deleted before; only its parent's list grows, or is begun, and its own is empty |
| EntryTree.DeletedForest | filer/filer_common/registry_db_model/model_tree.py:231-246 | after deleting any node but a root that is its own parent, the map is a forest that lists exactly the entries not below the node, and the node if it is a protected root |
| EntryTree.DeletedLeaves | filer/filer_common/registry_db_model/model_tree.py:231-246 | of the lists a deletion leaves: those of the node and of all below are gone, but an empty one for a root without leave to go; the parent's loses just the node; all others stay, order included |
| EntryTree.EntryStore.constructor | filer/filer_common/registry_db_model/model_tree.py:167-176 | the loading loop builds that map, whether parents come before or after their children |
| EntryTree.EntryStore.AddChild | filer/filer_common/registry_db_model/model_tree.py:205-225 | a child or leaf under its parent, with the number the table gave it, which may have been used and deleted before |
| EntryTree.EntryStore.DeleteFrom | filer/filer_common/registry_db_model/model_tree.py:231-246 | for any node but a root that is its own parent, the worklist loop ends and removes the node with everything below it, or all but the node for a protected root; an unknown node raises and changes nothing |
| EntryTree.DeletionEnds | filer/filer_common/registry_db_model/model_tree.py:234-246 | in every forest the work list is emptied exactly when the node is not its own parent |
| EntryTree.OwnParentRaises | filer/filer_common/registry_db_model/model_tree.py:234-246 | not protected, a root that is its own parent makes deletion raise in every tree that lists it |
| EntryTree.OwnParentKept | filer/filer_common/registry_db_model/model_tree.py:234-246 | protected, it makes deletion raise exactly when it has another entry below it |
| EntryTree.OwnParentLoops | filer/filer_common/registry_db_model/model_tree.py:234-246 | protected and alone, it is looked at for ever |
| Serialization.DigitsFewer | communication/protocol/client_simple_serialization.py:33-50 | an integer of two or more digits has fewer digits than its value, so the recursion on the digit count ends |
| Serialization.ComputeSerializeInt | communication/protocol/client_simple_serialization.py:28-50 | the digit loop and its recursive call compute the encoding, for every integer |
| Serialization.ReadSerializedInt | communication/protocol/client_simple_serialization.py:28-50 | an encoded integer of any sign and size is read back from the front of any longer stream |
| Serialization.IntPrefixFree | communication/protocol/client_simple_serialization.py:28-50 | different integers have different encodings and none is a prefix of another |
| Serialization.IntLayout | communication/protocol/client_simple_serialization.py:28-50 | the bytes of an integer: tag, width by size, least significant byte first; beyond eight bytes sign, number of bytes, and bytes without leading zeros |
| Serialization.ReadSerializedBytes | communication/protocol/client_simple_serialization.py:60-61 | a byte string is read back from the front of any longer stream |
| Serialization.ReadSerializedTlv | communication/protocol/client_simple_serialization.py:87-91 | so is a type-length-value triple that is accepted |
| Serialization.ReadSerializedTlvs | communication/protocol/client_simple_serialization.py:93-99 | so is a list of them, given its length |
| Serialization.TlvLayout | communication/protocol/client_simple_serialization.py:87-91 | a triple is accepted exactly when its type is a byte and its value shorter than 0xff0000, and is written as type, length, value |
| Serialization.TlvsAccepted | communication/protocol/client_simple_serialization.py:93-99 | a list of triples is accepted exactly when each is |
| Serialization.ReadSerializedObject | communication/protocol/client_simple_serialization.py:93-99 | so is an object with its type and counted attributes |
| Serialization.ObjectPrefixFree | communication/protocol/client_simple_serialization.py:93-99 | objects in a row are told apart, and where one ends is determined |
| Serialization.ObjectLayout | communication/protocol/client_simple_serialization.py:93-99 | an object is accepted exactly when it has fewer than 256 attributes, all accepted; and how it is written |
| Fragments.ChunkSizes | communication/protocol/client_simple_serialization.py:209-219 | no fragment is empty, none exceeds the maximal size, and only the last may be short |
| Fragments.MergeAndFragment | communication/protocol/client_simple_serialization.py:209-227 | cutting while payloads are taken in gives the same fragments as cutting the joined stream, numbered with their total |
| Fragments.Reassemble | communication/protocol/client_simple_serialization.py:261-282 | the dictionary and the joining loop give the joined bytes or the first reason against them |
| Fragments.AnyOrder | communication/protocol/client_simple_serialization.py:209-282 | the fragments of any packets in any order give back the bytes of the packets |
| Fragments.AcceptedExactly | communication/protocol/client_simple_serialization.py:268-282 | fragments are accepted exactly when their indices are 0 to n - 1, each once, and each states the total n |
| Fragments.RefusedExactly | communication/protocol/client_simple_serialization.py:268-280 | why fragments are refused: the first index none has, or whose last fragment states another total |
| Fragments.LastCounts | communication/protocol/client_simple_serialization.py:269-272 | of fragments with one index the last counts |
| Congestion.WindowAfter | baseimplems/datastreams/full.py:158-172 | after any acks and timeouts the window is between 1 and its maximum |
| Congestion.SlowStart | baseimplems/datastreams/full.py:158-161 | below the threshold each ack adds one packet, so a window of acks doubles the window |
| Congestion.AtMaximum | baseimplems/datastreams/full.py:158-164 | at the maximum acks change nothing |
| Congestion.LossNumbers | baseimplems/datastreams/full.py:169-177 | a timeout sets the window to one and the threshold to half the window but two at least; three duplicate acks set both to that |
| Congestion.WholePackets | baseimplems/datastreams/full.py:180-182 | the window in whole packets |
| Congestion.DupAckWithinMaximum | baseimplems/datastreams/full.py:175-178 | fast recovery keeps the window within its maximum exactly when that is at least two packets |
| Congestion.AcksGrow | baseimplems/datastreams/full.py:158-164 | from the threshold on and below the maximum, any number of acks grows the window as the uncapped congestion-avoidance rule says |
| Congestion.SquareGrowth | baseimplems/datastreams/full.py:162-164 | in congestion avoidance the square of the window grows by at least two per ack |
| Congestion.GrowthPerWindow | baseimplems/datastreams/full.py:162-164 | in congestion avoidance one window of acks adds at most one packet, and half an ack more than that adds at least one (section 3.1 of RFC 5681) |
| Congestion.EstimateBounds | baseimplems/datastreams/full.py:118-129 | with samples in [a, b] the smoothed time stays in [a, b], its deviation is at most the larger of b/2 and b-a, and the timeout stays within its limits |
| Congestion.ConstantSample | baseimplems/datastreams/full.py:124-126 | a constant sample keeps the smoothed time and shrinks the deviation to three quarters |
| Congestion.FirstTimeout | baseimplems/datastreams/full.py:118-129 | after a first sample the timeout is three times the sample, between 0.2 and 60 seconds |
| Congestion.TimeoutNumbers | baseimplems/datastreams/full.py:113-129 | before any sample the timeout is a second; after any samples it is four deviations above the smoothed time, between those limits |
| Congestion.SmoothedIs | baseimplems/datastreams/full.py:118-126 | after any samples the smoothed time is their average with weights falling by powers of 7/8, and the deviation that of half the first and the distances with weights falling by powers of 3/4 (section 2 of RFC 6298) |
| Congestion.CongestionWindow.Ack | baseimplems/datastreams/full.py:158-164 | slow start below the threshold, congestion avoidance above it, both capped |
| Congestion.RttEstimator.Update | baseimplems/datastreams/full.py:118-129 | first sample and later ones, the deviation using the old smoothed time (section 2 of RFC 6298) |
| Congestion.WindowGate.Acquire | baseimplems/datastreams/full.py:233-245 | a permit is taken exactly when there is room; otherwise a fresh event is armed |
| Congestion.GateNumbers | baseimplems/datastreams/full.py:233-277 | a permit is granted exactly below both windows, release undoes it, a window is never below one packet, and everything but a failed acquire wakes the waiter |
| Wire.DecodeEncoded | baseimplems/datastreams/full.py:70-91 | what can be encoded is decoded to itself |
| Wire.EncodeDecoded | baseimplems/datastreams/full.py:78-91 | a datagram that decodes is the encoding of what it decodes to, an ack up to trailing bytes |
| Wire.DataLayout | baseimplems/datastreams/full.py:66-71 | the bytes of a data packet, and that it can be encoded exactly with a number below 2^32 |
| Wire.AckLayout | baseimplems/datastreams/full.py:67-75 | the bytes of an ack, and that it can be encoded exactly with a number below 2^32 and room below 2^16 |
| Wire.DecodesExactly | baseimplems/datastreams/full.py:78-91 | which datagrams decode, as what, and that only the empty one raises what the readers do not catch |
| Sender.StepSound | baseimplems/datastreams/full.py:366-476 | every step of producer, ack task or watchdog keeps five invariants: each packet in flight is watched, permits match their holders, a waiting producer finds the window full, every attempt is one transmission, and only packets transmitted once have been sampled |
| Sender.PermitsNeverLeak | baseimplems/datastreams/full.py:366-467 | in every run the gate never counts more permits than are held, and fewer by no more than the permits released twice |
| Sender.StepExact | baseimplems/datastreams/full.py:366-476 | where the count is exact a step keeps it so exactly when it is not the release by a watchdog that gave up on a packet no longer in flight while the gate counts a permit |
| Sender.PermitsExact | baseimplems/datastreams/full.py:366-476 | in every run the count is exact all the time exactly when no step is such a release |
| Sender.NoDeadlock | baseimplems/datastreams/full.py:233-272 | a producer waiting on an unset event finds the window full; and some packet has a permit that will be released exactly when not all permits are held by packets whose `send` raised, in particular when none has |
| Sender.StuckWindow | baseimplems/datastreams/full.py:366-379 | a run in which they all are: the next `send` waits for ever |
| Sender.TransmissionsBounded | baseimplems/datastreams/full.py:459-475 | no packet is transmitted more often than allowed |
| Sender.KarnsRule | baseimplems/datastreams/full.py:396-399 | in every run a packet whose round trip has been sampled was transmitted once at most, before the sample and ever after |
| Sender.PayloadsInOrder | baseimplems/datastreams/full.py:366-380 | the packets carry, by their numbers, exactly the payloads given to `send` in their order, but for one it may still be waiting with |
| Sender.SendGoesThrough | baseimplems/datastreams/full.py:366-380 | a `send` that finds room, woken or not, puts its payload in flight under the next number and a watchdog, and returns |
| Sender.RetryNumbers | baseimplems/datastreams/full.py:446-475 | a packet is tried once more exactly when its time runs out in flight with attempts left; the window is then one, the threshold half the old window but two at least, and the gate is to get one |
| Sender.GiveUpNumbers | baseimplems/datastreams/full.py:459-469 | without attempts left it is given up, and the window goes the same way |
| Sender.SettleNumbers | baseimplems/datastreams/full.py:445-457 | a watchdog that waits returns once its packet is out of flight |
| Sender.AckNumbers | baseimplems/datastreams/full.py:389-403 | an ack for a packet in flight takes it out, grows the window by one or its inverse up to the maximum, and takes a sample exactly if the packet was tried once |
| Sender.GateNumbers | baseimplems/datastreams/full.py:366-475 | who moves the windows of the gate and to what, and that a permit is only taken below both |
| Sender.AfterTimeouts | baseimplems/datastreams/full.py:453-475 | in every run the gate gets one after a timeout, what the ack has read after an ack, and no packet is given up before all its attempts are made |
| Sender.WindowIsLogged | baseimplems/datastreams/full.py:382-475 | in every run the window is what one event per ack that took a packet out and per timeout make of the first window, in their order |
| Sender.DogStepWorks | baseimplems/datastreams/full.py:436-476 | every watchdog step that does something uses up work |
| Sender.DrainBounded | baseimplems/datastreams/full.py:415-476 | while nothing new is sent the watchdogs take at most as many steps as there is work, whatever acks arrive |
| Sender.DrainProgresses | baseimplems/datastreams/full.py:436-476 | as long as a packet is in flight that is not in the producer's hands, and its `send` has not raised, its watchdog has a step to take |
| Sender.QuiescentMeans | baseimplems/datastreams/full.py:436-476 | no watchdog has a step left exactly when all have returned |
| Sender.Quieten | baseimplems/datastreams/full.py:436-476 | from every state of the invariant watchdog steps lead there, no more of them than there is work |
| Sender.DrainCanEnd | baseimplems/datastreams/full.py:415-476 | whatever acks and watchdogs have done, watchdog steps still lead there, and the two together stay within the work there was |
| Sender.DrainFinishes | baseimplems/datastreams/full.py:415-424 | whatever acks and watchdogs have done: once no watchdog has a step left, nothing is in flight but what the producer has in hand and packets whose `send` raised |
| Sender.StuckStays | baseimplems/datastreams/full.py:366-379 | a packet that could not be encoded stays in flight through every continuation, further sends included, in which no ack for it comes in |
| Sender.DrainFinishesExactly | baseimplems/datastreams/full.py:415-434 | whatever acks and watchdogs have done with no `send` under way: once no watchdog has a step left, the flight is empty exactly when no packet in it was one whose `send` had raised |
| Sender.PermitReleasedTwice | baseimplems/datastreams/full.py:453-467 | a run in which an ack between look-up and removal makes one permit be released twice while another packet is in flight |
| Sender.WindowOvershot | baseimplems/datastreams/full.py:453-467 | that run and one more send: two packets are in flight in a window of one |
| SlidingWindow.DedupRemembers | baseimplems/datastreams/full.py:533-539 | the memory is exactly the last dispatches, as many as fit, and dispatches of one number are further apart than that |
| SlidingWindow.DedupMemory.Accept | baseimplems/datastreams/full.py:533-539 | the eviction loop makes room for one and remembers the new number; a known one changes nothing |
| SlidingWindow.NextKeeps | baseimplems/datastreams/full.py:366-552 | every event of sender, network, receiver or handler keeps the invariant of the whole system |
| SlidingWindow.DeliveryIsSafe | baseimplems/datastreams/full.py:366-552 | in every run every dispatched payload was sent under its number, a packet held for acked was dispatched, the memory is the last dispatches, and two dispatches of one number are more than the dedup window apart |
| SlidingWindow.SenderPuts | baseimplems/datastreams/full.py:430-475 | each transmission counted, the first or a repeated one, puts a datagram with number and payload of the packet on the network, and nothing else does |
| SlidingWindow.NoneLostAllThere | baseimplems/datastreams/full.py:366-475 | in every run in which the sender's datagrams are not lost, one is on the network for every packet transmitted |
| SlidingWindow.ReceiverAnswers | baseimplems/datastreams/full.py:520-535 | every datagram that reaches a receiver not busy with another is taken in and acked at once, known or not, with the number of handlers that can be started |
| SlidingWindow.HandlerAnswers | baseimplems/datastreams/full.py:547-552 | so is the end of a handler, with the number that can be started then |
| SlidingWindow.DispatchesUnknown | baseimplems/datastreams/full.py:533-545 | a packet taken in is dispatched exactly unless its number is among the last ones dispatched, as many as the window |
| SlidingWindow.HandlersStart | baseimplems/datastreams/full.py:547-550 | a handler starts for anything dispatched that has none yet, as long as there is room |
| SlidingWindow.CanBeAcked | baseimplems/datastreams/full.py:382-552 | from every reachable state: a datagram of a packet in flight that is on the network can still bring about its ack, if receiver and ack task are free |
| SlidingWindow.AtMostOnce | baseimplems/datastreams/full.py:533-545 | runs that dispatch no more than the dedup window plus one dispatch each number at most once |
| SlidingWindow.LastNumber | baseimplems/datastreams/full.py:366-379 | in every run of the whole system `send` fails for the packet numbers from 2^32 on and for no others, and those packets are in flight without a watchdog |
| SlidingWindow.DrainExactly | baseimplems/datastreams/full.py:366-434 | from every reachable state with no `send` under way, whatever acks and watchdogs then do: once no watchdog has a step left, the flight is empty exactly when number 2^32 had not been registered |
| SlidingWindow.DrainEnds | baseimplems/datastreams/full.py:366-476 | and whatever they have done, watchdog steps lead there: the flight is then empty exactly when that number had not been registered |
| SlidingWindow.LastNumberReached | baseimplems/datastreams/full.py:366-475 | with one attempt allowed there is a run that gets there, each packet before being given up |
| Statistics.WeightedUpdate | baseimplems/datastreams/event_processing.py:62-68 | the incremental update keeps the exact weighted mean and the exact weighted sum of squared deviations from it |
| Statistics.SizeUpdate | baseimplems/datastreams/event_processing.py:42-46 | the per-event update keeps the exact mean and population variance |
| Statistics.TimeStat.Update | baseimplems/datastreams/event_processing.py:38-68 | whatever the events, the accumulators are exact for the samples taken; which samples those are, and when time running backwards raises |

## Left out

- Sockets, object-service, database and file calls, sessions, locks, text formats, logging, printing and demos: effects outside the program.
- Real hash functions, compression and signatures: the hash is an arbitrary function of the bytes.
- `HandleCache`, `backend_proxy_constrained.py`, `server_base_glue.py`, `filer_server/`, `filter_registry/`, `backend_effectful.py`, `backend_remote.py`: unfinished, or resting on names that are not part of this model.
- `baseimplems/datastreams/tcp.py` and `ChunkedBytes` in `baseimplems/datastreams/chunk.py`: earlier or simpler forms of what is modelled.
- `serialize_one` and the encoders of dates, times and floats: tags and widths there do not agree with one another; parsing reassembled bytes into packets is not modelled either.
- Client upload: finding the hash in a first pass or through a cache, and the background queue tasks around the upload loop.
- `get_root` of the stored tree, which makes a root without listing it, and its roots list and entries by id.
- Listings that include deleted items (the list of all hashes behind them is kept), listings by size, and the text form of dumped hashes.
- More than one concurrent producer on a window gate, and how long timeouts take: a watchdog's time may run out at any moment, so the values of round-trip samples do not influence the run.
- Simulated loss in `_transmit`, a switch that drops a packet before it is encoded: packets are lost on the network instead. A socket call is taken not to raise.
- Sender.DrainFinishes: that the scheduler lets watchdogs run until they have returned is not modelled; what is proved is that it takes only so many steps.
- SlidingWindow.NextKeeps: a dedup window of zero, with which the receiver raises at the first packet, and a queue of 65536 or more, whose room no ack can carry, are accepted by the program and not modelled; the largest congestion window is at least one packet.
- Settings: memory limits are not negative, chunk sizes and download steps are positive, ranges read from the in-memory backend and placeholder numbers the client is given are not negative.
- Sql.SqlUpload.UploadChunkAt: one placeholder at a time; the dictionaries by placeholder, the content table and the clean-up of rows after a terminate are not modelled, and row numbers are taken to be handed out in order.
- Sql.SqlUpload.CheckFinal: the clean-up of rows and dictionaries that always follows a terminate is not modelled; whether its deletions are committed depends on how the session closes.
- S3.S3Backend.UploadTerminate: whether the object service accepts a complete list of parts is a parameter; its reasons, among them its minimum part size, are not modelled.
- ServerChain.SuccessIsFinished: a server that answers a terminate well is taken to have finished all the chunks it accepted; what servers do inside is not modelled here.
- Statistics.TimeStat.Update: the read-out properties, among them the standard deviation per event, which divides an average once more, are not modelled.
- Fragments.MergeAndFragment: the maximal size is at least one; with zero the loop of the program does not end.
- Config, type trees, context variables and enum registration: plumbing.
