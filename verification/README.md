# Verified models of the sync engine, the relay and the capture path

Dafny models of the stateful protocols of this repository, and proofs about every run of them. Each
protocol has two layers. A specification says what one step does to the state: a merge, a presign, a
store to one slot, a critical section. The theorems are about all runs of such steps. Beside it, a
class or a method does what the program does, statement by statement on fields, arrays and tables, and
is proved to take exactly the steps of the specification.
`dafny verify dfyconfig.toml` checks it all.

| file | what it models |
|---|---|
| `Quarantine.dfy`, `ReplayCounts.dfy`, `QuarantineDb.dfy`, `Traces.dfy` | rows that cannot apply yet: stash, barrier, replay with one transaction per row, crashes and new pulls in between |
| `Codec.dfy`, `Bytes.dfy` | the changeset wire format, as an encoder and a cursor |
| `Relay.dfy`, `RelayLedger.dfy`, `Snapshots.dfy`, `RelayDb.dfy`, `Choke.dfy`, `Sums.dfy` | presign, timed uploads, the two-phase sweep, snapshot re-points and the usage ledger |
| `Turnstile.dfy` | the ticket lock over a mutex and a condition variable, as steps of threads |
| `AudioStream.dfy` | the segment layer of sealed audio, over an abstract cipher, short reads and a full destination |
| `RingBuffer.dfy`, `Extraction.dfy` | the sample ring with single stores and loads, and the cursor arithmetic of mixed extraction |
| `FetchRegistry.dfy` | admission control for fetches: two first-in first-out classes kept in one deque |
| `Sessions.dfy`, `Roster.dfy` | refresh-token families and the device roster |
| `Cascade.dfy`, `RateLimit.dfy` | the one-pass cascade of deletes, and the fixed-window limiter |

## What the proofs found

Most promises hold as stated. These do not, or hold under a condition the model makes exact.

- The relay never orphans an object if and only if the grace period is at least the length of a
  transaction, plus the delay from commit to signature, plus the URL lifetime, plus the transfer time of
  an admitted upload (`Relay.NeverOrphansIff`). For any shorter grace period there is a run that does.
- A device that was removed is promised no recovery grant, so that it needs approval to come back
  (`crates/yapstack-server/src/auth.rs:559-562`). A recovery withholds the grant only while the row is
  still revoked, and any sign-in makes the row pending: a removed device that recovers twice, or logs in
  with the password and then recovers once, readmits itself from every state
  (`Roster.RemovedDeviceReadmitsItself`, `Roster.LoginThenRecoveryReadmits`). A recovery lets a device
  admit itself if and only if its row is neither revoked nor active at that moment
  (`Roster.RecoveryAdmitsIff`).
- `seal_segments` has no upper bound on the chunk size while `open_segments` has one: a larger chunk
  size seals without an error into a blob that never opens (`AudioStream.RoundTrip`, both directions).
- Replay is said to drop a stashed blob that does not decode (`crates/yapstack-sync/src/quarantine.rs:126`,
  `:308`), but line 307 returns the error. A pass comes to its end if and only if every stashed blob decodes
  (`Quarantine.PassFinishesIff`), and a blob that does not stays forever, with everything stashed behind it
  (`Quarantine.NothingPassesCorrupt`). Only a blob with no row in it is dropped.
- With column gaps, a row overtakes an earlier, ready row of its key exactly through a column that is added
  while a running pass has left a row behind for want of it and still has a row of that key to come:
  without such an addition it never happens, after each one it can
  (`Quarantine.HarmlessColumnsNeverOvertake`, `Quarantine.HarmfulColumnOvertakes`).
- A declared length beyond 63 bits is clipped where it is metered but not where it is signed, so an
  object can be longer than what was metered for it (`RelayLedger.OversizedIsStored`); what is stored is
  always what was metered exactly while declared lengths fit 63 bits (`RelayLedger.AlwaysMeteredIff`).
- Trimming by time is said to prevent cumulative drift (`crates/yapstack-audio/src/manager.rs:532-535`). It
  bounds the drift by one frame a call; over any number of calls the drift is bounded if and only if the two
  sample rates are equal (`Extraction.DriftIsBoundedIff`).
- The limiter is described as a rolling window (`crates/yapstack-server/src/ratelimit.rs:1`, `:11`). A minute
  admits at most one less than twice the limit, which is reached for every limit, so it bounds every minute by
  the limit itself only for a limit of one (`RateLimit.MinuteBound`, `RateLimit.RollingOnlyForOne`).

## Model

| member | source | states |
|---|---|---|
| Quarantine.PerKeyFifo | crates/yapstack-sync/src/quarantine.rs:208-346 | with whole-table gaps only, in every reachable state and for every (table, pk), rows applied followed by rows stashed are the rows of committed merges in arrival order, whatever falls between two replay transactions |
| Quarantine.Converges | crates/yapstack-sync/src/quarantine.rs:208-346 | once the stash has drained, the device state is that of a device that had every table all along, if applies to different keys commute |
| Quarantine.CatchesUp | crates/yapstack-sync/src/quarantine.rs:286-346 | after any such run, once every missing table is there one undisturbed pass brings the device to that state |
| Quarantine.PerCellFifo | crates/yapstack-sync/src/quarantine.rs:4-346 | with any gaps, tables or columns, as long as no added column does harm: in every reachable state and for every column of every row, what was applied followed by what is stashed is what arrived, in arrival order |
| Quarantine.CellsConverge | crates/yapstack-sync/src/quarantine.rs:4-346 | then a drained stash means the state of a device that could apply every row as it arrived, if applies to different columns commute |
| Quarantine.CellsCatchUp | crates/yapstack-sync/src/quarantine.rs:279-346 | and once every missing table and column is there one undisturbed pass brings the device to that state |
| Quarantine.QuietPassDrains | crates/yapstack-sync/src/quarantine.rs:292-346 | an undisturbed pass over a ready stash empties it in arrival order |
| Quarantine.StepKeepsInv | crates/yapstack-sync/src/quarantine.rs:97-346 | every merge, look, commit, crash and schema change but a harmful column keeps the stash in order and leaves a row of a key still to come behind only for a cause |
| Quarantine.StepKeepsFifo | crates/yapstack-sync/src/quarantine.rs:97-346 | every step keeps per-key order, by the ready-key barrier, the failed-key block and the per-pass cache |
| Quarantine.NoRowIsLost | crates/yapstack-sync/src/quarantine.rs:192-346 | over every run, with any gaps, rows applied and rows stashed are together exactly the rows of committed merges |
| Quarantine.HarmlessColumnsNeverOvertake | crates/yapstack-sync/src/quarantine.rs:69-136 | with any gaps, as long as no added column does harm, a row passes an earlier stashed row of its key only if that one was not ready |
| Quarantine.HarmfulColumnOvertakes | crates/yapstack-sync/src/quarantine.rs:303-343 | the condition is exact: whenever an addition does harm (a row left behind by the running pass waits for just that column and a row of its key is still to come), the run continues to a state in which a ready row is overtaken |
| Quarantine.ColumnGapsOvertakeOnlyUnready | crates/yapstack-sync/src/quarantine.rs:69-136 | in particular when no column appears under a running pass |
| Quarantine.ColumnUnderPassOvertakes | crates/yapstack-sync/src/quarantine.rs:303-343 | such runs exist for any two rows of one key of which the first names a column |
| Quarantine.PassFinishesIff | crates/yapstack-sync/src/quarantine.rs:306-346 | a pass comes to its end, whatever happens in between, if and only if every blob it started with decodes |
| Quarantine.NothingPassesCorrupt | crates/yapstack-sync/src/quarantine.rs:306-312 | over every run, merges and schema changes included: a stashed blob that does not decode stays, and everything stashed behind it |
| Quarantine.CorruptHeadStopsReplay | crates/yapstack-sync/src/quarantine.rs:306-312 | with such a blob at the head, from any state of a run, replaying applies and deletes nothing |
| Quarantine.PassIsARun | crates/yapstack-sync/src/quarantine.rs:292-346 | a whole replay pass under arbitrary interference is a run of the machine |
| Quarantine.MergeIsExact | crates/yapstack-sync/src/quarantine.rs:208-260 | a merge applies, in order, the rows that are ready and have no ready row of their key stashed, and stashes the others in order |
| Quarantine.CompleteDeviceAppliesAll | crates/yapstack-sync/src/quarantine.rs:1-27 | the device of the comparison: one that has every table and column from the start never stashes a row and applies every row as it arrives |
| ReplayCounts.ReportAddsUp | crates/yapstack-sync/src/quarantine.rs:302-343 | whatever happens during a pass that comes to its end, every candidate but the empty blobs is counted once, rows are blocked only behind a failed one, and nothing failed or was blocked if every transaction was accepted |
| ReplayCounts.ReportIsExact | crates/yapstack-sync/src/quarantine.rs:302-343 | while no table or column appears, the counts are told by the stash and the schema: rows accepted, rows whose table or column is not here among keys of which none had failed, rows rejected, and later rows of those keys |
| ReplayCounts.PassLeavesExactly | crates/yapstack-sync/src/quarantine.rs:302-343 | and exactly the candidates counted as waiting, failed or blocked are in the stash afterwards |
| Traces.SameByKeyThenSameFold | crates/yapstack-sync/src/quarantine.rs:4-21 | trace equivalence: if every key sees the same rows in the same order, the overall order does not matter |
| QuarantineDb.StashedBlobHoldsItsRow | crates/yapstack-sync/src/quarantine.rs:193-203 | every blob that is stashed decodes to exactly its row |
| QuarantineDb.SameBarrier | crates/yapstack-sync/src/quarantine.rs:87-136 | looking only at the tables of the changeset misses no barrier key of its rows |
| QuarantineDb.CrrCache.IsCrr | crates/yapstack-sync/src/quarantine.rs:50-64 | the first answer for a table is kept for the whole merge or pass |
| QuarantineDb.Database.IsDeferrable | crates/yapstack-sync/src/quarantine.rs:69-77 | deferred exactly when the table is no CRR as far as the cache knows, or the column is missing and is not the row marker |
| QuarantineDb.Database.ReadyStashedKeys | crates/yapstack-sync/src/quarantine.rs:97-136 | the keys with a ready stashed row among the tables of the changeset, blobs that do not decode ignored |
| QuarantineDb.Database.Stash | crates/yapstack-sync/src/quarantine.rs:193-203 | appends one entry holding the row |
| QuarantineDb.Database.ApplyOrQuarantine | crates/yapstack-sync/src/quarantine.rs:208-223 | quarantines behind the barrier or when deferrable, else applies, and fails only when a ready row is rejected |
| QuarantineDb.Database.MergeChangeset | crates/yapstack-sync/src/quarantine.rs:242-260 | commits exactly when every ready row is accepted, as the machine's merge; else everything rolls back |
| QuarantineDb.Database.DeleteStashed | crates/yapstack-sync/src/quarantine.rs:307-340 | removes the entry with that id and nothing else |
| QuarantineDb.Database.ReplayRows | crates/yapstack-sync/src/quarantine.rs:293-343 | the loop does what the machine's pass does, candidate by candidate, whatever other connections do in between, with the same counts, or ends at a corrupt blob |
| QuarantineDb.Database.ReplayPending | crates/yapstack-sync/src/quarantine.rs:292-346 | the pass, ending without an error exactly when every stashed blob decodes, and then recording its counts, which are those of the stash it began with: all of them add up to its rows, and while the schema stays they are exact |
| QuarantineDb.Database.PersistReplayOutcome | crates/yapstack-sync/src/quarantine.rs:164-190 | afterwards the status reads the waiting rows and the failed and blocked ones together; nothing is written when it already did |
| QuarantineDb.Database.ReplayStatus | crates/yapstack-sync/src/quarantine.rs:150-161 | the recorded counts, zero when there are none |
| Codec.EncodeThenDecode | crates/yapstack-sync/src/change.rs:80-172 | decoding an encoded changeset followed by any bytes gives it back if and only if its row count and every length fit 32 bits |
| Codec.DecodeThenEncode | crates/yapstack-sync/src/change.rs:124-172 | whatever decodes is the encoding of the result followed by the unread rest |
| Codec.EncodingIsPrefixFree | crates/yapstack-sync/src/change.rs:82-122 | no encoding is a proper prefix of another |
| Codec.TagsOnTheWire | crates/yapstack-sync/src/change.rs:89-117 | the tag bytes of the five kinds of values and of the site, and the payload behind each |
| Codec.RowOnTheWire | crates/yapstack-sync/src/change.rs:82-122 | a row byte for byte: the order of the nine fields, four-byte lengths and eight-byte integers with the most significant byte first |
| Codec.RowSound | crates/yapstack-sync/src/change.rs:132-170 | a row that parses was written by its fields in order |
| Codec.RowComplete | crates/yapstack-sync/src/change.rs:85-119 | a row that fits parses back, whatever follows |
| Codec.Encode | crates/yapstack-sync/src/change.rs:82-122 | the encoder appends exactly the specified bytes, lengths truncated as the casts truncate them, and they decode back exactly for changesets that fit |
| Codec.Decode | crates/yapstack-sync/src/change.rs:124-172 | the decoding loop is the parser, error by error |
| Codec.Encoder.PutBytes | crates/yapstack-sync/src/change.rs:43-46 | appends the length prefix and the bytes |
| Codec.Cursor.TakeBytes | crates/yapstack-sync/src/change.rs:48-60 | takes exactly one length-prefixed field or reports which part is truncated |
| Codec.Cursor.TakeI64 | crates/yapstack-sync/src/change.rs:62-69 | takes eight bytes as a signed big-endian integer |
| Codec.Cursor.TakeU8 | crates/yapstack-sync/src/change.rs:71-78 | takes one byte |
| Codec.Cursor.TakeRow | crates/yapstack-sync/src/change.rs:132-170 | takes the nine fields in order and stops at the first that fails |
| Relay.NeverOrphansIff | crates/yapstack-server/src/gc.rs:80-158 | over every interleaving of presigns, timed uploads and sweep steps every stored object has a row, if and only if the grace period covers the reach of a presign |
| Relay.RefcountsCountMappings | crates/yapstack-server/src/audio.rs:59-217 | in every reachable state refcounts count mappings, every mapping has a row, and the release stamp is set exactly at zero and tells when the last mapping left |
| Relay.StepKeepsCounted | crates/yapstack-server/src/audio.rs:109-217 | every presign and sweep step keeps that |
| Relay.DecrementNeverFloors | crates/yapstack-server/src/audio.rs:127-147 | the floor at zero of the decrement never fires |
| Relay.DeletedRowWasLongUnmapped | crates/yapstack-server/src/gc.rs:89-150 | a row is deleted only while nothing maps to it and nothing has for longer than the grace period less one transaction |
| Relay.EligibleIsOutOfReach | crates/yapstack-server/src/gc.rs:80-106 | nothing signed or about to be signed can still land on an eligible blob |
| Relay.PresignNeverMakesEligible | crates/yapstack-server/src/gc.rs:122-138 | a presign during a sweep never makes a blob eligible for the cutoff in force |
| Relay.UrlUnlessSeen | crates/yapstack-server/src/audio.rs:219-241 | an object that is not there always gets an upload URL |
| Relay.LostObjectReturns | crates/yapstack-server/src/audio.rs:164-241 | from any state a blob that has lost its object gets it back by one more presign, with the length recorded before and at no cost |
| Relay.StepKeepsSound | crates/yapstack-server/src/gc.rs:80-158 | every step keeps the timing of signatures and releases and the guard between the two deletes |
| RelayLedger.NeverUnderMeters | crates/yapstack-server/src/choke.rs:54-107 | in every reachable state the storage counter is live blobs plus snapshot charges plus pushes, hence at least what is recorded as stored |
| RelayLedger.ExactWithoutRepoint | crates/yapstack-server/src/snapshot.rs:183-199 | equal to what is recorded when no snapshot is re-pointed |
| RelayLedger.SwapKeepsLedger | crates/yapstack-server/src/snapshot.rs:138-173 | metering the growth over a size read earlier never falls behind, even if the row was re-pointed away and back |
| RelayLedger.RefundNeverFloors | crates/yapstack-server/src/gc.rs:124-149 | the floor at zero of the refund never fires |
| RelayLedger.CapsHold | crates/yapstack-server/src/choke.rs:54-107 | with fixed caps neither counter exceeds its own, in any run |
| RelayLedger.StoredBytesAreMetered | crates/yapstack-server/src/audio.rs:164-241 | with a long enough grace period each stored object has exactly the metered length, for lengths within 63 bits |
| RelayLedger.OversizedPresignPinsMore | crates/yapstack-server/src/audio.rs:183-223 | beyond 63 bits the metered length is clipped and the signed one is not |
| RelayLedger.OversizedIsStored | crates/yapstack-server/src/audio.rs:183-223 | and one presign, its URL and the upload store an object longer than its row was metered for |
| RelayLedger.AlwaysMeteredIff | crates/yapstack-server/src/audio.rs:149-241 | with a long enough grace period, runs with declared lengths up to a bound always store exactly what was metered if and only if the bound is within 63 bits |
| Choke.UsageTable.Admit | crates/yapstack-server/src/choke.rs:54-107 | reserves both counters exactly when not frozen and within both caps after the period roll, else leaves the row as it was and names the breach |
| Choke.CountersMean | crates/yapstack-server/src/choke.rs:60-107 | over every sequence of requests the storage counter is all bytes admitted and the upload counter those admitted since the current billing period began; refused requests leave no trace |
| RelayDb.TenantStore.PresignTx | crates/yapstack-server/src/audio.rs:91-217 | the statements of a presign up to its commit are one presign step, and a refusal rolls all of them back |
| RelayDb.TenantStore.Answer | crates/yapstack-server/src/audio.rs:219-241 | after the commit: an upload URL for the pinned length, unless the blob was known and its object is seen |
| RelayDb.TenantStore.DropOldReference | crates/yapstack-server/src/audio.rs:127-147 | the statement on the old blob, as `OldBlobIsReleased` describes it |
| RelayDb.OldBlobIsReleased | crates/yapstack-server/src/audio.rs:127-147 | the old blob loses one reference and is stamped on reaching zero unless it has a stamp; no other row changes |
| RelayDb.TenantStore.AddReference | crates/yapstack-server/src/audio.rs:59-76 | one more reference, stamp cleared |
| RelayDb.TenantStore.Scan | crates/yapstack-server/src/gc.rs:89-106 | lists exactly the eligible blobs, each once |
| RelayDb.TenantStore.DeleteObjectOf | crates/yapstack-server/src/gc.rs:108-120 | the first phase: object gone if the delete was confirmed, unknown otherwise |
| RelayDb.TenantStore.DeleteRowOf | crates/yapstack-server/src/gc.rs:122-150 | the second phase: row deleted exactly if still eligible, its bytes refunded with it |
| RelayDb.TenantStore.RunSweep | crates/yapstack-server/src/gc.rs:74-162 | the loops process exactly the listed blobs and accumulate the counts; exactly the blobs unreferenced since before the cutoff whose object delete was confirmed lose row and object |
| RelayDb.SweepOutcome | crates/yapstack-server/src/gc.rs:108-158 | exactly the listed blobs with a confirmed object delete lose their row, and no other object is touched |
| RelayDb.SweepCounts | crates/yapstack-server/src/gc.rs:45-55 | the deleted count is the number of rows gone, and every listed blob was deleted or skipped |
| RelayDb.SweepRefunds | crates/yapstack-server/src/gc.rs:139-155 | in every reachable state, for whatever a sweep lists and however its deletes turn out, the usage counter falls by exactly the bytes it reports as reclaimed |
| RelayDb.TenantStore.SnapshotPresign | crates/yapstack-server/src/snapshot.rs:77-206 | the four answers for a recorded snapshot, and a charged insert or a clean refusal for a new one |
| RelayDb.TenantStore.RepointTx | crates/yapstack-server/src/snapshot.rs:138-180 | answers an upload if and only if the growth was admitted and the row still had the hash that was read, and then charges exactly the growth and swaps the row; a conflict or a refusal changes nothing |
| Snapshots.OneSwapWins | crates/yapstack-server/src/snapshot.rs:128-173 | over any run, of two re-points that read the same hash at most one changes the row, unless it was pointed back to that hash in between |
| Snapshots.SwapIsCompareAndSwap | crates/yapstack-server/src/snapshot.rs:148-173 | a swap whose read hash is not the present one changes neither rows nor usage; else it replaces the row and reserves the growth, if there is room |
| Snapshots.RowChanges | crates/yapstack-server/src/snapshot.rs:148-199 | a recorded snapshot changes only by a swap that read its present hash |
| Turnstile.TurnsGoOutInTicketOrder | crates/yapstack-common/src/write_turnstile.rs:64-95 | in every run at most one thread holds the turn, and turns go out in the order in which tickets were drawn |
| Turnstile.EveryTicketIsServed | crates/yapstack-common/src/write_turnstile.rs:64-95 | no lost wake-up and no starvation: in every fair infinite run each ticket is granted its turn |
| Turnstile.StepKeepsInv | crates/yapstack-common/src/write_turnstile.rs:64-95 | after every step the owner of the ticket being served holds the turn, is awake, or sleeps with a notification still owed |
| Turnstile.SpuriousWakeupsAreHarmless | crates/yapstack-common/src/write_turnstile.rs:64-73 | a sleeper that wakes for no reason takes the turn if its ticket is served, and is else back asleep with nothing changed |
| Turnstile.MutualExclusion | crates/yapstack-common/src/write_turnstile.rs:41-73 | at most one holder, and it drew the ticket being served |
| Turnstile.GrantsInTicketOrder | crates/yapstack-common/src/write_turnstile.rs:64-73 | a step that grants a turn grants the lowest ticket not granted so far, and only when nobody holds one |
| Turnstile.WaitingCountsThreads | crates/yapstack-common/src/write_turnstile.rs:75-79 | the outstanding tickets are as many as the threads that own one |
| Turnstile.WriteTurnstile.DrawTicket | crates/yapstack-common/src/write_turnstile.rs:64-73 | the critical section of a draw and its first check |
| Turnstile.WriteTurnstile.Recheck | crates/yapstack-common/src/write_turnstile.rs:68-70 | the check after a wake-up |
| Turnstile.WriteTurnstile.Advance | crates/yapstack-common/src/write_turnstile.rs:88-95 | a drop serves the next ticket and leaves nobody holding |
| Turnstile.WriteTurnstile.Waiting | crates/yapstack-common/src/write_turnstile.rs:75-79 | counts the threads with a ticket behind the one being served |
| AudioStream.RoundTrip | crates/yapstack-crypto/src/audio_stream.rs:200-315 | sealing and opening give the plaintext back if and only if the chunk size is between one and the opening bound and the segments fit the counter; sealing fails only for a zero chunk or an outrun counter |
| AudioStream.OnlySealedOpens | crates/yapstack-crypto/src/audio_stream.rs:260-315 | under an ideal cipher, over all byte strings, exactly the sealed one opens, and whatever is written on any input is a prefix of the plaintext |
| AudioStream.IdealCipherMeetsBoth | crates/yapstack-crypto/src/audio_stream.rs:34-44 | the two assumptions on the cipher can be met together |
| AudioStream.NonceInjective | crates/yapstack-crypto/src/audio_stream.rs:10-12 | a nonce names one counter and one last flag |
| AudioStream.BytesOnTheWire | crates/yapstack-crypto/src/audio_stream.rs:10-44 | the header and the nonces byte for byte: version, chunk size, prefix; prefix, counter, last flag |
| AudioStream.RefusalsOfOpening | crates/yapstack-crypto/src/audio_stream.rs:260-315 | over all byte strings, when opening reports a malformed blob, another version, or a segment that fails |
| AudioStream.ChunksFrame | crates/yapstack-crypto/src/audio_stream.rs:218-250 | chunking loses nothing; only the last piece is short and it is empty only alone |
| AudioStream.ChunkCount | crates/yapstack-crypto/src/audio_stream.rs:218-250 | the number of segments is the length over the chunk size rounded up, and one for an empty input |
| AudioStream.FramedAreChunks | crates/yapstack-crypto/src/audio_stream.rs:281-303 | cutting the concatenation gives the pieces back |
| AudioStream.ReadFull | crates/yapstack-crypto/src/audio_stream.rs:165-176 | fills the buffer over short and interrupted reads, less only at the end of the data |
| AudioStream.SealSegments | crates/yapstack-crypto/src/audio_stream.rs:200-251 | the look-ahead loop writes exactly the specified blob for every pattern of reads, and a prefix of it when the source or the destination fails |
| AudioStream.OpenSegments | crates/yapstack-crypto/src/audio_stream.rs:260-315 | the look-ahead loop releases exactly what the specification of opening says, with the same error, for every pattern of reads |
| RingBuffer.RacingRead | crates/yapstack-audio/src/ring_buffer.rs:114-154 | a load racing the writer yields log[p + laps * capacity], with no lap unless a later position had been stored in the slot |
| RingBuffer.RacingSnapshot | crates/yapstack-audio/src/ring_buffer.rs:311-361 | a whole snapshot racing the writer, sample by sample, and exact unless the writer came within a lap |
| RingBuffer.StepKeepsInv | crates/yapstack-audio/src/ring_buffer.rs:114-154 | every store and commit keeps slots, history and the readable window in agreement |
| RingBuffer.SameSlot | crates/yapstack-audio/src/ring_buffer.rs:131-134 | positions sharing a slot are whole laps apart |
| RingBuffer.AudioRingBuffer.Write | crates/yapstack-audio/src/ring_buffer.rs:114-154 | appends the data to the log and advances the position by all of it, though only the last capacity samples are stored |
| RingBuffer.AudioRingBuffer.SnapshotSamples | crates/yapstack-audio/src/ring_buffer.rs:196-232 | the last samples of the log, as many as asked and still there |
| RingBuffer.AudioRingBuffer.SnapshotSinceWithPos | crates/yapstack-audio/src/ring_buffer.rs:275-306 | the log from the cursor or from a capacity back, and the position to continue from |
| RingBuffer.AudioRingBuffer.SnapshotRange | crates/yapstack-audio/src/ring_buffer.rs:311-361 | exactly log[max(from, W - capacity) .. min(until, W)], with overrun exactly when the start moved |
| Extraction.MixedLosesNothing | crates/yapstack-audio/src/manager.rs:457-580 | over any run of mixed calls without an overrun, the mic samples in the outputs, put together, are the log between the first and the last cursor, and so are the system samples if and only if no call drops any |
| Extraction.SystemExact | crates/yapstack-audio/src/manager.rs:395-428 | a call drops the system frames it consumes exactly when there are some, the rates differ and resampling fails; the outputs are then short of the log |
| Extraction.ChainedPiecesJoin | crates/yapstack-audio/src/manager.rs:446-456 | outputs of calls chained by their cursors, put together, are the log from the first cursor to the last, however the log grows in between |
| Extraction.StepConsumes | crates/yapstack-audio/src/manager.rs:522-580 | a call moves each cursor over exactly the frames it consumed, never past what it read |
| Extraction.GiveBackIsExact | crates/yapstack-audio/src/manager.rs:550-560 | the rewind never saturates and lands on the first frame not kept |
| Extraction.DriftStaysSmall | crates/yapstack-audio/src/manager.rs:532-562 | after n two-sided calls the durations that the two cursors moved over differ by less than n frames of the slower source |
| Extraction.DriftIsBoundedIff | crates/yapstack-audio/src/manager.rs:532-535 | the drift stays bounded however many calls are made if and only if the two sample rates are equal |
| Extraction.NoDriftAtEqualRates | crates/yapstack-audio/src/manager.rs:532-562 | and then there is none |
| Extraction.DriftCanGrow | crates/yapstack-audio/src/manager.rs:532-562 | at any two different rates and any channels, for every n, n calls can move the cursor of the faster source by n frames and the other one not at all |
| Extraction.TrimExact | crates/yapstack-audio/src/manager.rs:544-552 | the shorter source keeps everything, the other one the whole frames that fit its duration |
| Extraction.StaysWithin | crates/yapstack-audio/src/manager.rs:593-691 | no cursor passes what the calls were allowed to read |
| Extraction.BoundedStaysWithin | crates/yapstack-audio/src/manager.rs:593-691 | a call hands out no cursor beyond the windows it was given |
| Extraction.AudioCaptureManager.ExtractSince | crates/yapstack-audio/src/manager.rs:457-580 | in all three modes: as long as the buffers still have everything from the cursors on, in whole frames, the samples returned are the log from the cursors given to the cursors handed back, but for system frames when resampling fails; one cursor at least reaches the end, and the rate is that of the source of the samples |
| Extraction.AudioCaptureManager.ExtractSinceUntil | crates/yapstack-audio/src/manager.rs:593-691 | the same between the cursors and the limits, and the overrun flag exactly; a next cursor passes its limit only under an overrun, and then no further than the first sample still in the buffer |
| FetchRegistry.StepKeepsInv | crates/yapstack-sync/src/audio.rs:1178-1317 | running is started minus finished and at most the cap, a waiting fetch means the cap is reached, waiting parts are distinct and are exactly the slots flagged queued, and every starter taken on was run, waits or was dropped once |
| FetchRegistry.RunKeepsInv | crates/yapstack-sync/src/audio.rs:1138-1318 | in every run |
| FetchRegistry.EveryFetchStarts | crates/yapstack-sync/src/audio.rs:1138-1270 | a waiting fetch starts once more tasks finished than were ahead of it or joined the high class; high ones are never overtaken |
| FetchRegistry.StepMovesUp | crates/yapstack-sync/src/audio.rs:1190-1300 | no operation moves a waiting fetch back, except behind one that joined the high class |
| FetchRegistry.SubmitJoins | crates/yapstack-sync/src/audio.rs:1183-1226 | a part with a slot is coalesced; else the fetch starts if a permit is free, or waits behind all of its class, a high one ahead of all normal ones |
| FetchRegistry.PromoteJoins | crates/yapstack-sync/src/audio.rs:1228-1248 | a waiting normal fetch goes behind all high ones; anything else is untouched |
| FetchRegistry.DropForgets | crates/yapstack-sync/src/audio.rs:1273-1317 | removal forgets the part and no other, cancellation does so exactly if it waits, and neither gives a permit back |
| FetchRegistry.FinishStartsTheFirst | crates/yapstack-sync/src/audio.rs:1250-1271 | a finish starts the fetch with nothing ahead, or frees the permit if nothing waits |
| FetchRegistry.Registry.SubmitWithPriority | crates/yapstack-sync/src/audio.rs:1190-1226 | coalesces, starts or queues; a high entry goes to the end of the high prefix of the deque |
| FetchRegistry.Registry.Promote | crates/yapstack-sync/src/audio.rs:1228-1248 | moves a waiting normal entry to the end of the high queue and reports whether it did |
| FetchRegistry.Registry.TaskFinished | crates/yapstack-sync/src/audio.rs:1250-1271 | releases the permit and starts the head of the deque |
| FetchRegistry.Registry.CancelIfQueued | crates/yapstack-sync/src/audio.rs:1273-1286 | forgets exactly a part that still waits |
| FetchRegistry.Registry.Remove | crates/yapstack-sync/src/audio.rs:1313-1317 | drops slot and entry |
| FetchRegistry.Registry.HighSegmentEnd | crates/yapstack-sync/src/audio.rs:1148-1153 | the high entries form the prefix of the deque |
| Sessions.StepKeepsInv | crates/yapstack-server/src/auth.rs:742-876 | after every request families are chains, share one device, are revoked as a whole or not at all, and each token was exchanged at most once |
| Sessions.RunKeepsInv | crates/yapstack-server/src/auth.rs:742-876 | in every run |
| Sessions.OnlyTheEndIsLive | crates/yapstack-server/src/auth.rs:784-830 | the only token of a family that can be exchanged is the end of its chain |
| Sessions.DeadStaysDead | crates/yapstack-server/src/auth.rs:796-804 | no token is ever minted or exchanged again in a revoked family |
| Sessions.SecondUseKillsTheFamily | crates/yapstack-server/src/auth.rs:777-804 | a second use of a token, after any run, is refused and revokes its whole family, the successor included |
| Sessions.PasswordChangeSparesTheCaller | crates/yapstack-server/src/auth.rs:735-749 | a password change ends every family but the caller's |
| Sessions.RemovalEndsFamilies | crates/yapstack-server/src/devices.rs:400-407 | a removal ends exactly the families of the removed devices |
| Sessions.RefreshTokens.Refresh | crates/yapstack-server/src/auth.rs:766-850 | exchanges exactly the tokens that may be, and a refusal of a known token leaves its family dead |
| Sessions.RefreshTokens.IssuePair | crates/yapstack-server/src/auth.rs:853-876 | the first token of a new family |
| Roster.UploadAdvances | crates/yapstack-server/src/devices.rs:296-418 | an accepted upload raises the counter, never lowers the epoch, and leaves its caller active and without a grant |
| Roster.NeverLockedOut | crates/yapstack-server/src/devices.rs:192-418 | from signup on no run leaves the account without an active device, or a removed one with a grant |
| Roster.NoReplay | crates/yapstack-server/src/devices.rs:303-317 | once accepted, an upload or an older one is never accepted again |
| Roster.ActivationsAreNamed | crates/yapstack-server/src/devices.rs:232-253 | every activation is named by an active device or is the device spending its own fresh grant |
| Roster.RemovalsAreAuthorized | crates/yapstack-server/src/devices.rs:253-296 | only an active caller with the current key removes a device, and never itself |
| Roster.UploadEffect | crates/yapstack-server/src/devices.rs:358-418 | an accepted upload revokes every known device of its removal list, stamps included, activates every other one it names, and of the rest changes only the caller's grant |
| Roster.UploadDecides | crates/yapstack-server/src/devices.rs:372-418 | both directions: which devices are removed, and which are active, after an accepted upload |
| Roster.ActiveUploadAllowed | crates/yapstack-server/src/devices.rs:246-317 | the exact conditions of an active device's upload, both directions |
| Roster.RefusalNamesItsCause | crates/yapstack-server/src/devices.rs:199-356 | what each error of an upload means |
| Roster.RefusedChangesNothing | crates/yapstack-server/src/devices.rs:199-356 | a refused request changes no row |
| Roster.SignInEffect | crates/yapstack-server/src/auth.rs:418-451 | what a login and a recovery do to the row of the device, and to no other |
| Roster.PasswordChangeAllowed | crates/yapstack-server/src/auth.rs:676-718 | a password change is accepted if and only if an active device sends the current key, or none while a waiver is fresh; never with a wrong or garbled key |
| Roster.KeylessChangeIff | crates/yapstack-server/src/auth.rs:698-718 | after any run from signup, a change without the key is accepted if and only if the device is active and recovered less than fifteen minutes before, with no change of the password and no removal since |
| Roster.WaiverIsLastRecovery | crates/yapstack-server/src/auth.rs:698-757 | over any run, the waiver a device holds is the time of its last recovery since which it has neither changed the password nor been removed |
| Roster.WaiversAreOneShot | crates/yapstack-server/src/auth.rs:698-718 | over any run a device changes the password without the key at most once per recovery, besides the waiver it held at the start |
| Roster.GrantAllows | crates/yapstack-server/src/devices.rs:318-356 | the exact conditions of an upload by grant, both directions; counting active rows against the list means all active and none twice |
| Roster.GrantChangesOnlyTheCaller | crates/yapstack-server/src/devices.rs:318-418 | such an upload advances the counter by one, keeps the epoch and changes no other device's status |
| Roster.GrantsAreOneShot | crates/yapstack-server/src/devices.rs:408-418 | over any run a device spends at most one grant per recovery made while not revoked |
| Roster.GrantNeedsLiveRecovery | crates/yapstack-server/src/auth.rs:588-600 | without a grant at the start, spending one takes a recovery at a time when the row was not revoked |
| Roster.RecoveryAdmitsIff | crates/yapstack-server/src/auth.rs:588-600 | what a recovery is worth, exactly: while it is fresh the device can admit itself if and only if its row was neither revoked nor active when it recovered |
| Roster.OneRecoveryIsNotEnough | crates/yapstack-server/src/auth.rs:553-562 | right after the recovery of a row that was still revoked, no upload of that device is accepted |
| Roster.LoginThenRecoveryReadmits | crates/yapstack-server/src/auth.rs:428-437 | from every state a removed device that logs in with the password and then recovers once can readmit itself |
| Roster.RemovedDeviceReadmitsItself | crates/yapstack-server/src/auth.rs:553-600 | from every state a removed device that recovers twice can readmit itself |
| Roster.Account.LoginFinish | crates/yapstack-server/src/auth.rs:396-459 | enrols a new or revoked device as pending, leaves others alone, refuses a foreign id, and without a device only issues tokens |
| Roster.Account.RecoverDevice | crates/yapstack-server/src/auth.rs:564-620 | enrols and arms, a revoked device without a grant; without a device only issues tokens |
| Roster.Account.PutRoster | crates/yapstack-server/src/devices.rs:192-425 | the checks in their order with their errors, then the updates and the revocation of sessions |
| Roster.Account.PutPassword | crates/yapstack-server/src/auth.rs:646-760 | accepts exactly those changes, names the refusal, clears the waiver, and revokes the sessions of all other devices |
| Cascade.OnePassIsAFixpoint | crates/yapstack-sync/src/cascade.rs:91-144 | after one pass no live row refers to a deleted parent through a ready relationship, and a second pass changes nothing |
| Cascade.PassIsExact | crates/yapstack-sync/src/cascade.rs:83-144 | a row goes exactly if references lead from it to a proven deleted key, and exactly the dangling set-null references are cleared; absence alone does nothing |
| Cascade.PassOnlyTakes | crates/yapstack-sync/src/cascade.rs:91-144 | a pass adds no row and no reference, marks what it deletes and touches no other mark |
| Cascade.OnlyEvenMarksCount | crates/yapstack-sync/src/cascade.rs:66-79 | with no even mark on the device a pass changes nothing, whatever is absent |
| Cascade.UnconvertedStays | crates/yapstack-sync/src/cascade.rs:98-128 | rows of a table that is not converted, or whose relationship names such a parent, stay |
| Cascade.WhatHangsOnWhat | crates/yapstack-sync/src/cascade.rs:28-58 | the references along which deletes spread, junction rows dying with either parent |
| Cascade.WhatIsCleared | crates/yapstack-sync/src/cascade.rs:60-65 | the references that are cleared instead: to a deleted folder, from a folder or a session |
| Cascade.ExactlyOrphansGo | crates/yapstack-sync/src/cascade.rs:101-128 | the deletions of a pass remove exactly the orphans |
| Cascade.ListIsOrdered | crates/yapstack-sync/src/cascade.rs:28-58 | every table is cleared before it is looked at as a parent |
| Cascade.OrderIsExact | crates/yapstack-sync/src/cascade.rs:28-58 | for lists with one relationship per child table, one pass is enough on every device if and only if every table is cleared before it is looked at as a parent |
| Cascade.NotesFirstIsExact | crates/yapstack-sync/src/cascade.rs:28-58 | of all orders of the list exactly those are right, on every device, that clear notes before note versions |
| Cascade.OrderMatters | crates/yapstack-sync/src/cascade.rs:30-37 | the list is in such an order, and for every order that is not there is a device on which one pass leaves an orphan |
| Cascade.Database.CascadeGc | crates/yapstack-sync/src/cascade.rs:83-145 | the three loops are the pass; the counts are the rows gone, how many references there are fewer for being cleared, and the relationships skipped |
| Cascade.NothingSkippedIff | crates/yapstack-sync/src/cascade.rs:16-26 | the skipped count is zero exactly when every relationship can run |
| RateLimit.EvictionIsInvisible | crates/yapstack-server/src/ratelimit.rs:44-47 | on every sequence of checks the limiter decides as one that never evicts |
| RateLimit.MinuteBound | crates/yapstack-server/src/ratelimit.rs:35-60 | any minute admits fewer than twice the limit of one key's hits |
| RateLimit.AllowedIff | crates/yapstack-server/src/ratelimit.rs:35-60 | over every sequence, exactly the first `limit` checks of each window of a key are allowed, a window beginning with the first check that no earlier one reaches; a denied check neither counts later nor prolongs its window |
| RateLimit.BoundIsReached | crates/yapstack-server/src/ratelimit.rs:35-60 | and that bound is reached for every limit |
| RateLimit.RollingOnlyForOne | crates/yapstack-server/src/ratelimit.rs:1-11 | every minute of every run admits at most the limit, as a rolling window would, if and only if the limit is one |
| RateLimit.ZeroDisables | crates/yapstack-server/src/ratelimit.rs:36-38 | a limit of zero admits everything |
| RateLimit.RateLimiter.Check | crates/yapstack-server/src/ratelimit.rs:35-60 | one check, with eviction above ten thousand buckets |

## Left out

Assumptions that the proofs rest on:

- A server request that runs in one transaction is one step. The isolation level does not give that by
  itself: `presign` reads the blob and mapping rows without a lock, and a revocation's update does not see
  a row that a concurrent refresh has inserted but not committed. The insert race that `presign` answers
  with a conflict is unreachable under this assumption and is not modelled.
- One sweep task and one replay pass run at a time. Clock readings of one component do not run backwards.
- `apply_change` is an abstract step that may fail; applies to different keys commute. cr-sqlite's own
  rules and clock tables are not part of this model, except that a delete leaves an even sentinel.
- Random identifiers (token ids, families) are fresh. A presented token was signed when its row was
  written. Signatures, proofs of possession and password checks are booleans.
- The cipher is ideal, for one data key per blob; the counter limit of the STREAM construction is that of
  the crate the repository depends on, whose source is not part of this model.

Contracts that say less than the source does:

- RelayDb.TenantStore.RunSweep: one tenant, with nothing else going on between its statements; the
  interleavings with presigns and uploads are the steps of `Relay`, over which the theorems are stated.
- Extraction.DriftStaysSmall: over exact rationals, where the program rounds to 64-bit floats.
- Extraction.TrimExact: the same.
- Extraction.DriftIsBoundedIff: the same.
- Extraction.NoDriftAtEqualRates: the same.
- Extraction.DriftCanGrow: the same.
- Extraction.AudioCaptureManager.ExtractSince: the same; and whether resampling succeeds is a boolean.
- Extraction.AudioCaptureManager.ExtractSinceUntil: the same; and whether resampling succeeds is a boolean.
- Turnstile.WriteTurnstile.DrawTicket: tickets are unbounded, so the wrap of a 64-bit counter is not
  modelled.
- AudioStream.OnlySealedOpens: the binding of the data key to tenant, session, part and epoch is checked
  when the key is unwrapped, before any segment, and is not modelled.

Not modelled:

- Counting queries; logging.
- A mapped object may lose its bytes when it is re-referenced between scan and object delete; the source
  accepts that, and the model allows it.
- The control plane that resets usage rows and changes limits, and rows written before a migration.
- Resampling, mixing and averaging of samples; conversion from integer samples; the energy estimate.
- Weak-memory effects: stores and loads of the ring are sequentially consistent.
- The write gate (an active caller) and the capability gates in front of the presigns; signup beyond its
  first device row and roster.
- HTTP, row-level security, SQL text, temporary files, the desktop application.
- `seal_blob` and `open_blob` beyond their segment layer, the upload queue and the fetch worker itself.
- The per-address throttling of other endpoints, which use the same limiter.
