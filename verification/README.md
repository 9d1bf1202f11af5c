# Verified model of an encrypted blob vault

A vault keeps files as encrypted chunks in blobs.  A blob is one file on disk: 4096 bytes of front matter that
end in two alternating commit slots, a chunk region that only grows, a gap, one contiguous stream-encrypted
index, and a trailing gap.  A write appends in place when the gaps allow it (Case 1) and otherwise moves the
index (Case 2); it commits by writing the inactive slot with the next generation.  Readers take no lock.  On
top of the blobs a vault plans where the chunks of a file go, groups them by blob, keeps a merged index in
memory, and serves whole-file, range and cursor reads by sorting and slicing.

The project models both layers and proves, for every input, every run and every crash:

- **the commit protocol**: what a transaction writes, that it succeeds exactly when no 64-bit sum overflows and
  no chunk is too long, that a failed one changes nothing, exactly when it survives a crash and what a refresh
  then finds, what the file shows of what is stored, what lock-free readers can see, how often the index moves
  and how long the file gets;
- **the vault**: exactly when a put and a retried put succeed, that the planner's estimates are the real sizes and
  its capacity bound holds, that the merged index always lists what is committed, that a stored file reads back
  through every mode, every later put and a reopening of the vault, that a reader goes on reading its files while
  others write, that range and cursor reads are slices, exactly when the retry loop ends, and how evenly striping
  spreads chunks.

`dafny verify dfyconfig.toml` checks everything.

## How it is built

The pure core works on values.  `Disk` is a byte sequence and two slots with an operation list; an operation
that is cut short leaves any bytes where it writes, and a slot it writes old, new or torn.  `Ledger` holds a
blob's ghost history: every record ever committed, in index order, and the commit of every generation; `Inv` is
what holds between transactions, `Readable` what readers rely on at every instant.  `Commits.Tx` is one write
transaction from such a state: its plan, the operations it issues and the history it reaches.  The class `Blob`
seeks and writes a `File` step by step, and `WriteChunks` is proved to issue exactly the operations of its
`Tx`; so the lemmas of `Crash`, `Readers`, `Bounds` and `Sharing` about transactions are about what the code does.

The vault's state is seen as values too: `VaultState.Seen` is all there is to see of a blob, `Consistent` says
that every blob is between transactions, the merged index is fresh, and every file put is held; `Served` is the
weaker condition that reading relies on, and it survives whatever others write meanwhile.  The class `Vault` changes its fields as the code does, and its methods are proved against the functions of `Planner`,
`Cache` and `Assembly`.

A put can fail for the size of a number, and `VaultState.PutOkIff` says exactly when.  `Success.Ample` is a simple
condition under which it cannot, called "clear of 64-bit limits" below: chunks are at most 2^38-64 bytes long, and
for each blob the larger of its size and the bound, plus the bound, its relocation paddings and 4153, is below 2^64.

Cryptography is ideal and concrete: a MAC value is the tuple of what it covers; the index keystream and the
frame keystreams are arbitrary functions combined by exclusive or; a frame is a 24-byte nonce, the text and a
16-byte tag, as in section 2.8 of RFC 8439, the tag an arbitrary function of key, nonce, associated data and
text; hashes are arbitrary functions.  Random bytes are parameters.

| file | content |
|---|---|
| `Basics.dfy`, `Sorting.dfy` | bytes, checked 64-bit arithmetic, errors; selecting from a list and a stable sort |
| `IndexCodec.dfy`, `Crypto.dfy`, `Disk.dfy` | the index stream, ideal primitives, a disk with partial writes |
| `Ledger.dfy`, `Transaction.dfy`, `Commits.dfy` | committed history, the plan and operations of one transaction |
| `Crash.dfy`, `Recovery.dfy`, `Overlap.dfy` | power loss at any point; what a refresh then finds; how a blob comes to a transaction that can lose the index |
| `Secrecy.dfy` | what the bytes of a file show of what is stored |
| `Readers.dfy` | lock-free readers interleaved byte by byte; runs with crashes |
| `BlobFile.dfy`, `Handles.dfy`, `Blob.dfy`, `Layout.dfy` | the file object, a handle's snapshot, the blob's methods, statistics |
| `Sharing.dfy`, `Bounds.dfy` | several handles on one file; relocation and space bounds over whole runs |
| `Cache.dfy`, `Planner.dfy`, `Placement.dfy`, `Estimates.dfy` | the merged index, the planner, what a plan covers and costs |
| `Striping.dfy` | balance of round-robin placement |
| `Growing.dfy`, `RoundRobin.dfy` | retrying with new blobs, in each mode |
| `Assembly.dfy`, `Storing.dfy`, `Filing.dfy`, `VaultState.dfy` | putting files together; what a put does blob by blob |
| `Success.dfy` | what planning and writing need to succeed |
| `Vault.dfy` | the vault's methods |
| `RoundTrips.dfy`, `VaultIo.dfy` | storing, reopening and reading back, runs of puts, reading while others write; creating a vault, retrying |

## Where the code and its documentation differ

The model follows the code.  A chunk entry is a tag and 72 bytes (src/blob.rs:45-46); the format document gives
the payload 73.  A relocation does not go past the old end of file (src/blob.rs:720-723), and it writes the moved
index and the new frames before the commit slot (src/blob.rs:734-755), so it may overwrite the index that the
active slot still describes, although the document calls that slot canonical until the commit.
`Crash.CrashAtomicIff` says exactly when the documented behaviour holds, and `Overlap.OverlapReached` leads a new
blob whose trailing gap takes one completion to a transaction for which it does not: that completion is committed,
then a chunk too long for the leading gap is requested.  Relocation also synchronises once where the document lists
several barriers.

Three more results are about what the code does not do.  The completion entry is added to the bytes planned for a
blob without a check for overflow (src/vault.rs:458); it wraps, as optimised builds of the original do, so a plan
may be accepted whose last blob it would overrun.  Such a plan is never stored: what it puts on that blob is too
long for a file, and the put fails before that blob is written (`VaultState.WrittenChargeFits`), so that
`VaultState.PutBounded` holds under every configuration.  After a crash that loses the active index a refresh
falls back to the other slot without an error, and so may give an older generation; `Recovery.RefreshAfterCrash`
says which, and `Overlap.OverlapReached` comes to a blob that is taken for empty again.  And retrying with new
blobs need not end in split mode: `Growing.RetryEndsIff` says exactly when it does with first fit, and
`Growing.RetryCanLoop` gives a file for which it does not; with striping it always ends
(`RoundRobin.StripedRetryEnds`).

## Model

| member | source | states |
|---|---|---|
| `Basics.FromLittleEndianRoundTrip` | src/blob.rs:1359-1361 | reading and writing little-endian fields are inverse, and a field of n bytes is below 256^n |
| `Basics.ByteWeighs` | src/blob.rs:1359-1361 | the byte at position i of a number weighs 256^i |
| `Basics.XorInvolutive` | src/blob.rs:1171-1182 | exclusive or with the same byte twice is the identity, on the bits of a byte |
| `Basics.XorAt` | src/blob.rs:1171-1182 | each bit of the result is the sum of the two bits modulo 2 |
| `Basics.XorSolves` | src/blob.rs:1171-1182 | what combines with a byte is determined by the result, every result can be reached, and only 0 leaves the byte as it is |
| `IndexCodec.ParseEntries` | src/blob.rs:1277-1327 | the parsing loop ends and accepts exactly the concatenations of encoded entries, returning the chunk and completion lists in stream order |
| `IndexCodec.EncodeInjective` | src/blob.rs:1329-1343 | two entry lists with the same stream are equal |
| `IndexCodec.ParseEncoded` | src/blob.rs:1277-1343 | parsing undoes encoding |
| `IndexCodec.ParseAppend` | src/blob.rs:1277-1327 | parsing distributes over concatenation of valid streams |
| `IndexCodec.EncodedLength` | src/blob.rs:45-52 | a stream is 73 bytes for each chunk and 57 for each completion |
| `IndexCodec.EntryLaidOut` | src/blob.rs:1329-1343 | where the tag and each field of an entry lie: 0x01, id, number, offset, length and hash, or 0x02, id, count and hash, numbers in 8 little-endian bytes |
| `Crypto.StreamXorAppend` | src/blob.rs:1171-1182 | encrypting the continuation at its stream offset gives the tail of the one-pass ciphertext |
| `Crypto.SomeStream` | src/blob.rs:1171-1182 | for any two texts of one length some key stream takes the one to the other, so a ciphertext alone tells only the length |
| `Crypto.DecryptSealed` | src/blob.rs:926-949 | a frame sealed for an entry decrypts to its plaintext and passes the length and hash checks |
| `Crypto.DecryptsOnlySealed` | src/blob.rs:926-949 | a frame decrypts to a text if and only if it is that text sealed, under the nonce it begins with, for the entry's file, number and offset, and the text has the entry's length and hash |
| `Crypto.FrameLaidOut` | src/blob.rs:1224-1240 | a frame is 24 bytes of nonce, the text combined with the file's key stream for that nonce, and 16 bytes of tag over both and the associated data |
| `Ledger.FramesDisjoint` | src/blob.rs:872-924 | frames of different committed chunks never overlap and lie in index order |
| `Ledger.DataTailIsTail` | src/blob.rs:913-924 | the checked maximum over all entries is the end of the last packed frame |
| `Ledger.DataTailIsMax` | src/blob.rs:913-924 | of any index the data tail is the least position past the front matter and every frame, and it overflows only when a frame ends at 2^64 or later |
| `Ledger.ActiveIsLast` | src/blob.rs:761-804 | the highest valid generation is the last commit, and two valid slots never share a generation |
| `Ledger.OpensOnlyAuthentic` | src/blob.rs:678-707 | a locator opens only the generation, length and ciphertext its MAC is of, and only in its own slot |
| `Ledger.OpenCommitted` | src/blob.rs:678-707 | under a committed locator any bytes read give exactly that commit's index or a MAC mismatch, never a parse error |
| `Ledger.ReadActiveCommitted` | src/blob.rs:678-707 | between transactions reopening reads the last committed index |
| `Transaction.PlannedFramesOn` | src/blob.rs:409-414 | frames written one after the other from the data tail put every planned chunk readably on the file |
| `Transaction.FillDrawn` | src/blob.rs:976-987 | each byte filled in is the random one drawn for its position |
| `Commits.NewIndexLength` | src/blob.rs:720-732 | the index grows by exactly 73 bytes a chunk and 57 a completion, and after a transaction that fits its length and offset are below 2^64 |
| `Commits.CipherGrows` | src/blob.rs:741-748 | the old ciphertext moved verbatim and the new entries encrypted at offset `index_length` are the one-pass encryption of the whole new index |
| `Commits.RecordsPlaced` | src/blob.rs:872-911 | chunks stay packed from 4096 without gap or overlap, and end at or before the index |
| `Commits.BodyTouches` | src/blob.rs:405-437 | exactly which byte ranges each case writes before the commit |
| `Commits.BodyStages` | src/blob.rs:405-449 | before the slot is written, both cases leave the complete new index ciphertext, every new frame, the slots as they were, and a file of exactly the promised length, overlapping moves included |
| `Crash.CommitReached` | src/blob.rs:381-479 | an uninterrupted transaction reaches the committed state of its new history |
| `Crash.CrashAtomic` | src/blob.rs:416-457 | if a transaction stops after any operation and what was not synchronised lands in any part, reopening reads exactly the old index or exactly the new one, and every listed chunk decrypts: always for Case 1, and for Case 2 when its ranges are disjoint from the old index region |
| `Crash.CrashAtomicIff` | src/blob.rs:709-759 | that disjointness is also necessary: a transaction is old-or-new after every crash if and only if it appends or its ranges miss the old index |
| `Crash.RelocationCanLoseIndex` | src/blob.rs:720-755 | every overlapping relocation has a crash after which the active locator no longer authenticates |
| `Crash.CrashKeepsChunks` | src/blob.rs:709-759 | even then no committed chunk is damaged |
| `Secrecy.IndexByteShown` | src/blob.rs:741-748 | a byte of a committed index on the file is its plaintext byte combined with the index key stream at its place, and so shows exactly where that is 0 |
| `Secrecy.FrameByteShown` | src/blob.rs:926-933 | a byte of a committed chunk on the file is its plaintext byte combined with its file's key stream for the nonce its frame begins with, and so shows exactly where that is 0 |
| `Secrecy.NoncesDrawn` | src/blob.rs:1224-1240 | the frame of the j-th chunk of a transaction begins, on the file, with the j-th nonce drawn |
| `Recovery.RefreshNewest` | src/blob.rs:481-498 | on any readable file a refresh gives the newest commit whose slot and index bytes are intact, and fails exactly when there is none: with no valid locator if neither slot opens, else with the retry budget exceeded |
| `Recovery.RefreshAfterCrash` | src/blob.rs:481-498 | after any crash of any transaction, atomic or not, a refresh gives exactly the newest intact commit, the new one included if it has landed |
| `Recovery.FallsBack` | src/blob.rs:481-498 | if the active index is lost and the slot and index of the commit before it are intact, a refresh goes back to that commit |
| `Overlap.ChunksForceOverlap` | src/blob.rs:397-406 | chunks too long for the leading gap are written over the index: unless that is empty, the relocation they force is not atomic |
| `Overlap.EntriesMayOverlap` | src/blob.rs:720-732 | a relocation forced by the entries alone is atomic exactly when the index was empty or goes to a place clear of where it was |
| `Overlap.OverlapReached` | src/blob.rs:709-759 | creating a blob, committing one completion and requesting a chunk too long for the leading gap comes to a transaction that is ready, not atomic, and has a crash after which the index does not authenticate and a refresh falls back to generation 0 and an empty index |
| `Readers.StepKeepsSystem` | src/blob.rs:381-479 | each part of each operation, each completion and each atomic crash keeps the system consistent |
| `Readers.RunKeepsChunks` | src/blob.rs:409-457 | along any run commits accumulate and no byte of a landed chunk changes |
| `Readers.CrashRunKeeps` | src/blob.rs:381-479 | over any run of transactions and atomic crashes no commit is lost: between transactions the blob reads as exactly the surviving commits, and each chunk they list decrypts at every later time |
| `Readers.LockFreeIndex` | src/blob.rs:303-359 | slots and every index byte read at arbitrary times: the result is the index of some committed generation, a prefix of the current records, or a MAC mismatch |
| `Readers.LockFreeRetry` | src/blob.rs:303-359 | the reading loop interleaved with writers, each slot and byte of each attempt read at any time: it gives the index of a landed commit, or runs out of attempts, or finds both slots torn, and never fails to parse; it finds the file too short only if an attempt read an index byte before it read the slots |
| `Readers.FirstAnswer` | src/blob.rs:303-359 | the reading loop answers with its first attempt that is not a MAC mismatch, and gives up only when all are |
| `Readers.QuietAttempt` | src/blob.rs:303-359 | an attempt during which no writer is at work finds the last commit |
| `Readers.LockFreeChunk` | src/blob.rs:361-365 | every chunk of a landed commit decrypts to its plaintext, each byte of its frame read at any later time |
| `BlobFile.File.WriteAllAt` | src/blob.rs:970-974 | overwrites in place, growing the file if need be, and logs the operation |
| `Handles.SnapshotCoherent` | src/blob.rs:663-676 | skipping the index read on an equal locator gives what reading would give: every committed record |
| `Handles.SnapshotKept` | src/blob.rs:471-475 | later commits never invalidate a snapshot, and a writer's new snapshot is that of its commit |
| `Handles.RefreshCommitted` | src/blob.rs:481-498 | between transactions a refresh yields the last commit |
| `Handles.ReadBackLocator` | src/blob.rs:439-456 | authenticating the bytes read back from the file gives the locator of a one-pass encryption |
| `Sharing.SharedRun` | src/blob.rs:180-184 | over any interleaving of writes and refreshes by any handles, each handle writing under its own configuration, handles that skip the index read get the same answers and leave the same file as handles that always read it, and each then works from every record any handle has committed |
| `Sharing.WriteIsTransaction` | src/blob.rs:381-479 | from the last commit, a write computed from nothing but the file, the locator and the loaded index does exactly what the transaction does, and fails exactly when it does not fit |
| `Blobs.Blob.ReadSortedLocators` | src/blob.rs:761-804 | the valid slots, highest generation first, slot A first among equals |
| `Blobs.Blob.ReadIndexWithLocator` | src/blob.rs:678-707 | reads, authenticates, decrypts and parses, with the error of the first step that fails |
| `Blobs.Blob.ReadIndex` | src/blob.rs:303-359 | retries only on a MAC mismatch, up to the budget; while the file does not change it answers as one attempt does, and between transactions returns the committed index |
| `Blobs.Blob.RefreshCommittedSnapshot` | src/blob.rs:481-498 | on any readable file adopts and returns the newest commit whose index is intact, or fails exactly when there is none; on failure the snapshot is unchanged |
| `Blobs.Blob.ReadChunk` | src/blob.rs:361-365 | a committed chunk reads back as the plaintext it was written with |
| `Blobs.Blob.ReadChunkById` | src/blob.rs:367-379 | reads the first committed chunk with the id and number, or reports that no committed record has them |
| `Blobs.Blob.ComputeDataTail` | src/blob.rs:913-924 | the loop computes the checked maximum of the chunk ends |
| `Blobs.Blob.PrepareWrite` | src/blob.rs:872-911 | succeeds exactly when every chunk is at most 2^38-64 bytes and the frames end below 2^64; then entries, frames and index bytes are those of the packed records |
| `Blobs.Blob.WriteRandomAt` | src/blob.rs:976-987 | fills the range in pieces of at most 8192 bytes, one after the other |
| `Blobs.Blob.RelocateAndAppendIndex` | src/blob.rs:709-759 | fails before any write exactly when the required length overflows; otherwise issues growth, move, entries, frames and one barrier, reading the index after growth |
| `Blobs.Blob.CommitIndex` | src/blob.rs:439-457 | writes the inactive slot with the next generation and the MAC of the bytes on the file |
| `Blobs.Blob.WriteChunks` | src/blob.rs:381-479 | any failure leaves file, history and snapshot unchanged; from a committed state it succeeds if and only if the transaction fits, fails with the invalid size only for a chunk that is too long and with an overflow only for a sum that overflows, issues exactly the transaction's operations, and returns, caches and leaves on disk the same extended index |
| `Blobs.Blob.CreateNew` | src/blob.rs:564-661 | succeeds exactly when gaps and paddings fit; then the blob is committed at generation 0 with an empty index after the initial gap, and the gaps hold the bytes drawn for them |
| `Layout.IndexPacked` | src/blob.rs:872-924 | a committed index lists frames packed from 4096, their sum being the chunk region |
| `Blobs.Blob.GetLayoutStats` | src/blob.rs:223-301 | between transactions front matter, frames, leading gap, index and trailing gap add up to the file, both chunk gaps and the unclassified bytes are 0, and nothing fails |
| `Blobs.Blob.InterChunkGaps` | src/blob.rs:246-258 | for any frames that do not overlap, in offset order: the bytes up to the end of the last one that are of none |
| `Sorting.SortByCorrect` | src/vault.rs:638 | sorting permutes its input into key order |
| `Sorting.SortByStable` | src/vault.rs:638 | sorting keeps elements with the same key in their order |
| `Bounds.LayoutStep` | src/blob.rs:393-406 | the layout a transaction reaches depends only on the layout it starts from and its sizes; it relocates exactly when a gap is too small |
| `Bounds.RelocationBound` | src/blob.rs:397-406 | under one configuration a run relocates at most 1 + C/(leading padding+1) + I/(trailing padding+1) times for C frame bytes and I entry bytes |
| `Bounds.SpaceBound` | src/blob.rs:725-732 | the file never shrinks and is never longer than it started or than content and both relocation paddings need; content is what it was plus what was written |
| `Cache.ReplaceProjects` | src/vault.rs:336-356 | replacing a blob's entries sets that blob's projection, in order, and no other |
| `Cache.ReplaceAdds` | src/vault.rs:336-356 | extending a blob's index adds exactly the new entries to the merged list |
| `Cache.ReplaceAgrees` | src/vault.rs:336-356 | for every blob the merged view stays the index last loaded for it |
| `Cache.CommitKeepsFresh` | src/vault.rs:235-244 | loading a blob's index after a commit keeps the view equal to what is committed and adds the commit's entries |
| `Cache.LoadCatchesUp` | src/vault.rs:329-356 | loading one blob's index brings a view of the past up to date in that blob and adds exactly what the blob has gained, whatever was committed to the others meanwhile |
| `Cache.FreshViews` | src/vault.rs:184-192 | two fresh views of the same blobs list the same entries, in whatever order |
| `Planner.ScanFindsFirst` | src/vault.rs:514-525 | the scan passes over full blobs in cyclic order until one has room or has an estimate that overflows, and reports no writable blob only past the last |
| `Planner.ScanFails` | src/vault.rs:514-527 | with estimates that exist, there is no writable blob if and only if every blob is full |
| `Planner.RoomMeans` | src/vault.rs:469-476 | a blob has room exactly if its size, what is planned for it and the new bytes come to at most the bound, and is full exactly if they exceed it below 2^64 |
| `Planner.ChoiceGoesRound` | src/vault.rs:490-527 | a choice starts at the first blob with first fit and otherwise at the cursor, for chunks and whole files alike, and takes the first blob from there, going round, that is not full; a whole file larger than the bound is refused before |
| `Planner.LargestChunkSize` | src/vault.rs:529-539 | the chunk size of split mode is the largest within both bounds, a chunk being charged 170 bytes besides its text; there is none exactly if no positive size is |
| `Placement.PiecesJoin` | src/vault.rs:384 | slices of a size are non-empty, all but the last exactly that long, as many as the rounded-up quotient, and join to the contents |
| `Placement.PlanCovers` | src/vault.rs:358-440 | in every mode a plan stores slices that join to the contents as the chunks 0, 1, 2 and so on, at least one |
| `Placement.GroupInOrder` | src/vault.rs:224-227 | the chunks a plan gives one blob are in order of their numbers |
| `Placement.WholeWithinCapacity` | src/vault.rs:366-401 | a whole-file plan puts everything on one blob, which stays within the bound, completion entry included |
| `Placement.PlannedWithin` | src/vault.rs:358-467 | in every mode an accepted plan's chunks keep every blob they touch within the bound, whatever the unchecked addition does; the completion entry does too unless that addition wraps |
| `Placement.SplitWithinCapacity` | src/vault.rs:404-467 | the charges of an accepted split plan stay within the bound if and only if the unchecked addition of the completion entry does not wrap; `VaultState.WrittenChargeFits` shows that it never does in a plan that is stored |
| `Placement.FinalizeMeans` | src/vault.rs:451-467 | the final check is about the last planned blob only: it passes if the completion fits there besides the chunks, finds no writable blob if it does not, and overflows otherwise |
| `Placement.PlacedCursor` | src/vault.rs:514-522 | after a file has been placed the cursor is past the blob of its last chunk |
| `Placement.CursorPastPlaced` | src/vault.rs:514-522 | placed or refused, the cursor is past the blob of the last chunk that found one, and where it was if none did |
| `Estimates.EstimateExact` | src/vault.rs:561-593 | with a fresh index the estimate is the data tail less 4096 plus the index length, and no checked step fails |
| `Estimates.SizeGrows` | src/vault.rs:541-559 | a transaction raises a blob's size by exactly its frames and entries |
| `Estimates.FileWithinEstimate` | src/vault.rs:561-593 | over a crash-free run the file is at most as long as it started or as 4096, the estimate and both paddings |
| `Striping.CyclicCounts` | src/vault.rs:504-522 | in a cyclic run every position has been chosen q times and the first r once more |
| `Striping.ChoiceAtCursor` | src/vault.rs:504-522 | a round-robin choice, for a chunk or a whole file, takes the blob at the cursor when that has room |
| `Striping.StripingBalance` | src/vault.rs:422-435 | over any run of striped files, on blobs of any sizes, while the blob at the cursor has room, the chunk counts of two blobs differ by at most one |
| `Striping.PutsBalance` | src/vault.rs:422-435 | the same over a run of puts, each changing the sizes and the cursor that the next one plans with |
| `Growing.PlanStable` | src/vault.rs:504-527 | with first fit, once every chunk has a place, empty blobs change neither the plan nor a failure of the final check |
| `Growing.RetryEndsIff` | native/src/vault_io.rs:46-66 | with first fit, however many empty blobs are added there is no writable blob if and only if the placement with a blob for every chunk leaves its last blob no room for the completion entry; and the file is planned after some number of blobs if and only if it leaves that room |
| `Growing.RoomyPlan` | src/vault.rs:451-467 | with an empty blob for every chunk every chunk has a place, and the plan is refused exactly by the check of its last blob |
| `Growing.RetryCanLoop` | native/src/vault_io.rs:46-66 | two chunks of 75 bytes under a bound of 400 are refused however many blobs are added |
| `Growing.WholeRetryEnds` | src/vault.rs:490-527 | in whole-file mode, a file no blob could take is planned on one added empty blob |
| `Growing.WholeNeverRefused` | src/vault.rs:490-527 | in whole-file mode there is always a writable blob beside an empty one, or another error |
| `Success.WholePlanIff` | src/vault.rs:366-401 | while no sum reaches 2^64, a whole file is planned exactly if some blob's size and the text, 113 bytes a chunk and 57 come to at most the bound; otherwise it exceeds the bound by itself or no blob is writable |
| `Success.WholeCursor` | src/vault.rs:514-522 | a whole file moves the cursor past its blob, and not at all when it is refused |
| `Success.RefusedOnlyForRoom` | src/vault.rs:358-467 | clear of 64-bit limits, a new file that fits an empty blob whole, or has any chunk size, is refused only for want of a writable blob |
| `Success.AmpleWrites` | src/vault.rs:229-244 | with chunks of at most 2^38-64 bytes, and the bound, the blobs and their paddings clear of 2^64, every blob takes what an accepted plan gives it |
| `RoundRobin.RefusedAttempt` | src/vault.rs:404-467 | with striping and an empty blob for every chunk, a refused attempt has put every chunk on the other blobs within one round and moved the cursor on by a place for each, never past those blobs |
| `RoundRobin.StripedRetryEnds` | native/src/vault_io.rs:46-66 | with striping, on blobs of any sizes and from any cursor, one of the attempts with 0, 1, ..., m + n/m added blobs is not refused for want of a writable one, for m chunks and n blobs to begin with, the cursor moving on at each |
| `Assembly.OrderedStored` | src/vault.rs:625-645 | sorting by sequence number restores the order of a stored file's chunks, whatever their order in the merged index |
| `Assembly.CompleteStored` | src/vault.rs:595-623 | a stored file passes the completeness check and its latest completion carries its count and hash |
| `Assembly.CompleteIff` | src/vault.rs:595-623 | the completeness check passes if and only if the greatest count among the listed completions of the file is the number of its listed chunks, not zero; without chunks the file is not found, else it is incomplete |
| `Assembly.OrderedIff` | src/vault.rs:625-645 | putting the chunks in order succeeds if and only if every number below their count is that of one of them; without chunks the file is not found, else it is incomplete |
| `Assembly.LengthSumIs` | src/vault.rs:318-323 | adding up lengths gives their sum, or the overflow error exactly when that reaches 2^64 |
| `Assembly.CursorContiguous` | src/vault.rs:308-316 | any run of cursor reads gives one contiguous slice, as long as was asked for or up to the end of the file, and moves the cursor to its end |
| `Assembly.SliceGrows` | src/vault.rs:279-295 | taking the wanted part of one more chunk extends the slice, for any chunk boundaries |
| `Storing.ProgressStep` | src/vault.rs:235-244 | writing one more blob's group and loading its index is a step of the put: its records are the packed group, its entries exactly those added |
| `Storing.AddedIsPlanned` | src/vault.rs:224-227 | blob by blob or chunk by chunk, the same entries are added |
| `Storing.PlannedGrouped` | src/vault.rs:224-227 | each planned chunk ends up on its own blob under an entry that describes it |
| `Filing.PutKeeps` | src/vault.rs:207-247 | files stored before are stored as before, whether a put completes or stops half-way |
| `Filing.PutHolds` | src/vault.rs:207-247 | once every group is written the merged index lists exactly the file's chunks, each readable, and one completion |
| `Filing.PutBacked` | src/vault.rs:235-244 | a put, finished or not, never lists a completion without chunks |
| `Filing.GroupSize` | src/vault.rs:442-467 | a group raises its blob's size by exactly what the plan charges, the completion on the last |
| `VaultState.FreshFromLoaded` | src/vault.rs:184-192 | once every blob's committed index is loaded, the view lists that and nothing else |
| `VaultState.RefreshedConsistent` | src/vault.rs:184-192 | loading every blob anew keeps every file, whoever stored it |
| `VaultState.PutIncomplete` | src/vault.rs:235-244 | a put that stops half-way has listed no completion, so nothing of the file can be read |
| `VaultState.PutOkIff` | src/vault.rs:229-247 | a put that is not refused succeeds if and only if every blob it touches takes its group |
| `VaultState.SizesExact` | src/vault.rs:561-593 | with a fresh index all the planner's estimates are real sizes |
| `VaultState.PutBounded` | src/vault.rs:217-244 | under every configuration, and whether a put finishes or stops half-way, no blob ends above the bound unless it was there before and did not grow |
| `VaultState.ServedLater` | src/vault.rs:259-298 | whatever is committed to the blobs meanwhile, and whatever transaction is under way, a vault that has not looked at them again goes on serving every file it served |
| `VaultState.CatchesUp` | src/vault.rs:329-356 | loading the index of one blob that has grown brings a view that was fresh for the past up to date in that blob, whatever else has been committed, and keeps every file that the blob's new records are not of |
| `VaultState.WrittenChargeFits` | src/vault.rs:451-467 | what a finished put has charged its last blob comes to less than 2^64, so a plan whose unchecked addition wraps is never stored |
| `VaultState.HeldPieces` | src/vault.rs:279-295 | every chunk of a file a vault serves reads back from the blob that lists it, though others have committed since, or are at work |
| `Vaults.Vault.Open` | src/vault.rs:109-136 | refuses a bad configuration, no blobs or a foreign blob; otherwise, with caching, the merged index is what is committed, and every file known to be on the blobs is a file of the vault |
| `Vaults.Vault.RefreshIndexes` | src/vault.rs:184-192 | reloads every blob; disks are untouched, the merged index becomes fresh, and every file stored, by this vault or another, stays stored |
| `Vaults.Vault.HandleBlobChanged` | src/vault.rs:176-182 | the changed blob's projection becomes its committed index and no other changes; a view that was fresh for the past becomes up to date in that blob and keeps every file that what the blob has gained is not of; a coherent vault stays so |
| `Vaults.Vault.AppendBlob` | src/vault.rs:195-205 | refuses a foreign blob; attaching an empty one keeps the merged index and every file |
| `Vaults.Vault.BlobPosition` | src/vault.rs:647-652 | the first blob with the id, or not found exactly when there is none |
| `Vaults.Vault.ChooseBlob` | src/vault.rs:490-527 | the loop is the scan from the cursor, or from the first blob, and moves the cursor past the chosen blob |
| `Vaults.Vault.FinalizePlannedFileComplete` | src/vault.rs:451-467 | the loop is the final check in order of position |
| `Vaults.Vault.PlanFileChunks` | src/vault.rs:358-440 | the loops compute the plan of each mode, or the same first error, and write nothing; the cursor ends past the last blob chosen, whether the file is planned or refused |
| `Vaults.Vault.GroupByBlob` | src/vault.rs:224-227 | each blob's chunks in plan order, and no other keys |
| `Vaults.Vault.WriteGroups` | src/vault.rs:229-244 | writes the groups in order of position, all of them if every blob takes its own, and otherwise up to the first blob that does not, for the reason given, before the completion is listed |
| `Vaults.Vault.PutFile` | src/vault.rs:207-247 | a refused put (known file, no writable blob, too large, bad configuration, overflowing estimate) writes nothing and keeps the merged index; otherwise, if every touched blob takes its group, it stores exactly the contents besides the files there were, each blob growing by its charge and its chunks, and if not it fails at the first that does not, for the size of a chunk or a sum, adds no file and leaves nothing of it readable; either way what was committed and what is listed of other files stay so, and no blob exceeds the bound unless it did before; the cursor moves as planning moves it |
| `Vaults.Vault.OrderedFileChunks` | src/vault.rs:625-645 | the file's chunks sorted, with errors for none and for a missing or repeated number |
| `Vaults.Vault.ReadSlices` | src/vault.rs:279-297 | the loop collects exactly the bytes from offset to end |
| `Vaults.Vault.ReadFileRange` | src/vault.rs:259-298 | of a file the vault serves, though others have committed since it last looked, exactly `contents[offset..min(offset+length, size)]`, empty past the end, and overflow exactly when the sum overflows and the range is not empty; bytes are returned only of files whose listed chunks are complete and numbered, with not found or incomplete for the others |
| `Vaults.Vault.ReadFile` | src/vault.rs:249-257 | a file the vault serves reads back as its contents, though others have committed since it last looked; whatever is returned is of a complete file and has the recorded hash |
| `Vaults.Vault.FileSize` | src/vault.rs:318-323 | the length of a file the vault serves, though others have committed since; of any ordered chunks their total or the overflow error; not found without chunks, incomplete when a number below their count is that of none |
| `Vaults.Vault.OpenFile` | src/vault.rs:300-306 | gives a cursor at 0 if and only if the listed chunks of the file are as many as the greatest count among its completions; else not found or incomplete |
| `Vaults.Vault.ReadFromFile` | src/vault.rs:308-316 | the slice from the cursor on, of any file the vault serves; the cursor moves past it, and stays on an error |
| `VaultIo.CreateVault` | native/src/vault_io.rs:27-34 | where there are no blobs yet, a new vault of one empty blob is consistent and holds no files |
| `RoundTrips.Store` | src/vault.rs:207-247 | clear of 64-bit limits a put succeeds if and only if it is not refused, and a new whole file if and only if some blob has room for it; a refused put gives the reason and stores nothing |
| `RoundTrips.StoreAndRead` | src/vault.rs:207-257 | round trip: a file stored in any mode reads back after any number of later puts, failed ones included, from the vault and from the vault opened again; clear of 64-bit limits it is stored unless it is refused |
| `RoundTrips.Reopen` | src/bin/vaultblob.rs:121-147 | opening the same blobs again on new handles, as a later process does, gives a vault with the files there were |
| `RoundTrips.PutAll` | src/vault.rs:207-247 | a run of puts ends with the sizes, the chunks on each blob and the cursor of the planner's run; clear of 64-bit limits a run of new files succeeds if and only if the planner's run does; in striped split mode, while the blob at the cursor has room, no blob has been given two chunks more than another |
| `RoundTrips.ReadWhileWriting` | src/vault.rs:176-182 | a vault goes on reading its files, without looking at its blobs again, while another vault on the same blobs stores any run of files; once it has handled the change of each blob it reads those files too, and is coherent again |
| `VaultIo.AttachNewBlob` | native/src/vault_io.rs:57-63 | attaches an empty blob if and only if the sums of the gaps and of the paddings fit |
| `VaultIo.TryPut` | native/src/vault_io.rs:56-65 | a round of the loop attaches a blob if and only if the put was refused for want of a writable one and a blob can be made; otherwise it answers with the refusal, with why no blob can be made, or, clear of 64-bit limits, with success |
| `VaultIo.PutFileWithRetry` | native/src/vault_io.rs:46-66 | never ends with no writable blob and keeps every file; in whole-file mode two attempts and so one new blob are enough; with striping m + n/m new blobs are, for m chunks on n blobs; with first fit, as many new blobs as chunks are enough or, exactly in the case of `Growing.RetryEndsIff`, no number is; when nothing but room stands in the way of a new file, enough attempts store it |
| `VaultIo.FillNewVault` | src/bin/vaultblob.rs:173-215 | a new vault in whole-file mode filled file by file with retry: each put ends with at most one new blob, and every file that was stored reads back; clear of 64-bit limits every file that fits an empty blob is stored |

## Left out

- `Vaults.Vault.PutFile`: a power loss or I/O error in the middle of a put across several blobs is not modelled; the code gives no atomicity across blobs, and `VaultState.PutIncomplete` covers only arithmetic and size failures.
- `VaultIo.PutFileWithRetry`: the loop is bounded by a number of attempts, because with first fit the original need not end; its contract says exactly when it does, and in the other modes gives a number of attempts that is always enough.  The ids of new blobs are parameters and distinct, as random ones are taken to be.
- `Crash.CrashAtomic`: the crash is a power loss from a synchronised starting state; a process killed between operations whose unsynchronised writes are lost by a later power failure, after another writer has begun, is not modelled.
- `Readers.LockFreeIndex`: reading one slot is one event that gives the old, the new or no locator, no crash falls within a read, and freshness is claimed only of attempts during which no writer is at work (`Readers.QuietAttempt`): with both slots torn the code fails without retrying.
- `Readers.CrashRunKeeps`: each crash falls in a crash-atomic transaction; `Crash.CrashKeepsChunks` is what is left after any other.
- `Blobs.Blob.ReadIndex`: the file does not change between the attempts of the method; `Readers.LockFreeRetry` is about attempts while it does.
- `Ledger.ActiveIsLast`: generations are unbounded; the code adds 1 to a 64-bit number without a check.
- `Blobs.Blob.WriteChunks`: real I/O errors, short reads, seeking and file locks are left out; methods are the critical sections.
- `Blobs.Blob.CreateNew`: the stable slot, wrapped keys and the derivation of keys from ids are not modelled; the front matter is opaque bytes and two slots.
- `Vaults.Vault.HandleBlobChanged`: change callbacks and watch registration are left out; only the refresh of the merged index is modelled.
- `RoundTrips.PutAll`: balance is claimed of runs in which every put stores its file and none attaches a blob; a refused put can move the cursor without storing a chunk.
- `VaultIo.CreateVault`: opening a directory that already holds blobs is `RoundTrips.Reopen`; finding them is not modelled.
- The cipher, MAC, key derivation and hash functions themselves: library calls with the ideal forms above.
- Opening a path, discovering a vault in a directory, blob file names, size strings and identifiers: plumbing around the two layers.
- Diagnostics, the display of statistics, foreign-function sessions, language bindings and command-line programs.
- `usize` is taken to be 64 bits wide, and a file's contents to be shorter than 2^64 bytes.
