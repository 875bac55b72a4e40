# ged2k download engine: a model and its proofs

This project models the download engine of ged2k, an ed2k client, and proves
what it keeps. `dafny verify dfyconfig.toml` checks everything.

The engine is built bottom-up, one module per component:

- `Geometry`, `Regions`, `PendingBlocks`: how a file is tiled into pieces and
  blocks, and how a block is collected from chunks.
- `BitFields`, `DownloadingPieces`, `Pickers`, `PiecePickers`: the allocator
  that decides which blocks a peer is asked for, in end game too. `Pickers` holds
  the values and their laws, the classes change arrays and lists in place and are
  proved to compute those values.
- `ReceivingPieces`: out-of-order storage of blocks with incremental hashing.
- `Transfers`, `TransferSafety`, `TransferResults`: the event loop with its peers
  as a step protocol, its invariant, and what that means for every run.
  `TransferLoop` has the handlers on the objects, each shown to do its step.
- `Restarts`, `RestartSafety`: saving a transfer and starting it again, any number of
  times. `TransferProgress`, `TransferEnds`: from which states it can still finish.
  `TransferHonest`: what it downloads from peers that send the right bytes.
- `StateBuffers`, `Tags`, `Packets`, `ResumeData`: the serializer with its sticky
  error, tags and packets, and the file a transfer resumes from; `SavedFiles` goes
  from the picker over that file to the picker again.
- `SearchPack`, `SearchBuild`, `SearchText`, `SearchEnds`, `SearchMeaning`: the search compiler,
  from typed text over the infix list to the prefix request, and what that asks for.
- `Selections`, `Policies`, `Sessions`: the search loop of the policy, which peer to
  connect to, and the loop that hands out connections.

`Bytes` and `Peers` hold what the modules share.

Conventions. Channels are queues, the file is a byte sequence, MD4 is an arbitrary
function of the bytes written, times are integers with 0 for the zero time. A
map's iteration order is arbitrary: it is a parameter of the functions, and the
methods take any element next. Where the original panics, the step protocol
ends the run with the reason, and the methods on objects require that it does not
happen. A peer's speed may change between two calls, so the functions take the set
of slower peers per call.

Where the code does not do what it seems to be meant for, the model follows the
code and a lemma says exactly when it matters:

- A transfer never reports that it is finished (`FinishedIsNeverReported`).
- A hash set that arrives later replaces the one before (`LaterHashSetDecides`).
- A restored picker does not know how many blocks the last piece has
  (`RestoreForgetsLastPiece`), and a complete piece is saved before it is hashed.
  Restarts are safe all the same (`SafeAcrossRestarts`), but a restarted transfer can
  finish exactly when it had its last piece and no piece was full and not hashed yet
  (`RestartedCanFinishIff`); one that was not restarted always can
  (`EveryRunCanFinish`).
- A close paren too many can pass (`PackRefusesIff`, `UnopenedCanPass`), and so can an
  operator at the end with a space behind it (`OperatorAtTheEnd`, `OperatorAfterQuery`).
- A 32-bit tag value is written little-endian and read big-endian (`TagNumberIff`).
- A one-character tag name, an empty file name and an over-long blob do not
  survive the wire (`TagRoundTripIff`, `ParametersRoundTripIff`).
- A peer at the empty endpoint can hide a better candidate from the search
  (`EmptyEndpointHidesBest`) and is spared when the list is full
  (`EmptyEndpointIsSpared`), and the DHT source has no rank (`DhtHasNoRank`).
- The limit of connections per second is only compared with zero after a pass, so it
  can be passed, and then nothing stops the loop before every ready peer is connected
  (`LimitPassedIff`, `PairPassesOddLimit`, `OneOvershoots`).
- A range given backwards corrupts a region it splits (`SubAllSortedIff`). `Receive`
  never gives one: nobody checks the ends of a part, but its slice expression panics
  first (`SliceIff`, `ReceivePanicsIff`).

## Model

| member | source | states |
|---|---|---|
| Geometry.PieceCountIsCeilingIff | proto/common.go:677-690 | The piece count is the size divided by the piece size, rounded up, exactly for the sizes whose rounding does not wrap around 2^64. |
| Geometry.ShapeOf | proto/common.go:681-690 | For every such nonzero size the last byte lies in the last block of the last piece: no smaller number of pieces or of last blocks holds the file. |
| Geometry.FromOffsetStart | proto/transfer.go:24-30 | FromOffset inverts Start for every offset inside a block, and the in-block offset is the distance to the start. |
| Geometry.OffsetInItsBlock | proto/transfer.go:24-30 | Every offset lies in the block it is mapped to. |
| Geometry.BlockBounds | peer_connection.go:35-39 | Every block of a file is nonempty, at most a block long, inside its piece and the file, and computed without overflow. |
| Geometry.BlocksPartitionFile | proto/transfer.go:24-30 | An offset inside the file lies in exactly one block of the file, the one FromOffset names; an offset behind the end lies in none. |
| Geometry.BlocksDisjoint | peer_connection.go:35-39 | Two different blocks of a file share no byte. |
| Geometry.BlocksOfPieceAreConsecutive | peer_connection.go:35-39 | A block ends where the next one of its piece starts, and the last one where the piece ends. |
| Geometry.BlockLengthsSumToSize | proto/common.go:681-690 | The lengths of all enumerated blocks add up to the size of the file. |
| Regions.SubRangeRemoves | data/region.go:41-64 | Subtracting one range from another leaves exactly the offsets of the first that are not in the second, as at most two sorted nonempty ranges. |
| Regions.SubAllRemoves | data/region.go:28-64 | Subtraction removes exactly the offsets of the range and keeps the list sorted, disjoint and free of empty ranges. |
| Regions.SubAllGrowsByOne | data/region.go:28-64 | A subtraction splits at most one range of the list. |
| Regions.SubAllSortedIff | data/region.go:28-64 | Subtraction keeps the list sorted exactly when the range is not given backwards, or splits no segment of the list. |
| Regions.Region.Sub | data/region.go:28-35 | The loop over the segments computes the subtraction from the whole list. |
| PendingBlocks.PendingTracksChunks | peer_connection.go:46-59 | After any sequence of chunks inside the block, the region is the block minus the union of what arrived, with at most one more range than chunks, and every byte outside it is the one received last for its offset. |
| PendingBlocks.CompleteIffCovered | data/region.go:37-39 | The region is empty exactly when the chunks received cover the whole block. |
| PendingBlocks.SliceIff | peer_connection.go:46-49 | In 64-bit arithmetic, wrap-around and sign included, the slice of the buffer that a part is read into exists exactly when the part is not given backwards and ends within its block. |
| PendingBlocks.PendingBlock.MakePendingBlock | peer_connection.go:35-39 | A new pending block misses exactly its range and has a zeroed buffer of that length. |
| PendingBlocks.PendingBlock.ReadFull | peer_connection.go:46-59 | Reading fills the slice of the buffer from the stream, completely or up to the end of the stream, and nothing else. |
| PendingBlocks.PendingBlock.Receive | peer_connection.go:46-59 | A complete chunk is laid over the buffer and taken off the region; a chunk cut short changes the buffer only and is an error. |
| PendingBlocks.PendingBlock.ReceiveToEof | peer_connection.go:61-69 | Decompressed data has to reach the end of the block; then it counts as one chunk from its offset on. |
| BitFields.CountIsCardinality | proto/bitfield.go:130-148 | The number of set bits is the cardinality of the set of indexes the field stands for. |
| BitFields.BitsSpellByte | proto/bitfield.go:114-124 | A byte is what its bits spell, index 0 being the highest. |
| BitFields.CountNextByte | proto/bitfield.go:130-148 | The two nibble-table lookups add the number of set bits of one byte. |
| BitFields.CountAllIff | proto/bitfield.go:130-148 | The count equals the length exactly when every bit is set. |
| BitFields.BitField.Count | proto/bitfield.go:130-148 | The table loop and the tail loop together count the set bits. |
| BitFields.BitField.GetBit | proto/bitfield.go:114-116 | Reads membership of the index. |
| BitFields.BitField.SetBit | proto/bitfield.go:122-124 | Adds exactly one index to the set; the trailing bits stay zero exactly when the index is below the length. |
| BitFields.BitField.ClearBit | proto/bitfield.go:118-120 | Removes exactly one index from the set. |
| BitFields.BitField.ClearTrailingBits | proto/bitfield.go:87-92 | Clears the bits behind the last one and no others. |
| BitFields.BitField.Resize | proto/bitfield.go:46-53 | Keeps the bits below both lengths; bits above the old length are clear, and the trailing bits stay zero. |
| BitFields.BitField.ResizeVal | proto/bitfield.go:55-85 | Growing with a value gives that value to exactly the new indexes; shrinking drops indexes only. |
| BitFields.BitField.SetAll | proto/bitfield.go:94-100 | All indexes below the length are in the set and the trailing bits stay zero. |
| BitFields.BitField.ClearAll | proto/bitfield.go:102-106 | The set becomes empty. |
| BitFields.BitField.Assign | proto/bitfield.go:108-112 | The bits of the given bytes below the given length, with zero trailing bits. |
| BitFields.BitField.Create | proto/bitfield.go:150-155 | An empty set over the given number of indexes. |
| BitFields.BitField.Clone | proto/bitfield.go:157-162 | An equal set that shares no bytes with the original. |
| DownloadingPieces.PickFromPicks | downloading_piece.go:52-80 | A pick returns ascending blocks that could be picked, takes each of them once, changes no other block, and falls short only when every block that could be picked was taken. |
| DownloadingPieces.PickFromIsFirst | downloading_piece.go:59-77 | No block that could be picked is passed over for a later one. |
| DownloadingPieces.NothingToPick | downloading_piece.go:54-57 | The early return for a piece without free blocks agrees with the loop. |
| DownloadingPieces.DownloadingPiece.NewDownloadingPiece | downloading_piece.go:24-26 | All blocks of a new piece are free. |
| DownloadingPieces.DownloadingPiece.NewDownloadingPieceParams | downloading_piece.go:28-30 | Saved blocks are finished and requested, all others free, and the saved bits are copied, not shared. |
| DownloadingPieces.DownloadingPiece.FreeBlocksCount | downloading_piece.go:32-34 | The number of blocks nobody has requested. |
| DownloadingPieces.DownloadingPiece.NumHave | downloading_piece.go:44-46 | The number of finished blocks. |
| DownloadingPieces.DownloadingPiece.OfferBlock | downloading_piece.go:59-77 | One block is taken exactly when it is free, or in end game unfinished with one downloader who is forgotten or slower; what that means for a whole pick is said by EndGamePicksIff. |
| DownloadingPieces.DownloadingPiece.PickBlock | downloading_piece.go:52-80 | The loop over the bit fields and counters in place computes the pick. |
| DownloadingPieces.DownloadingPiece.AbortBlock | downloading_piece.go:82-104 | An abort takes one downloader off an unfinished block, frees it at zero, forgets a last downloader with the same endpoint, and leaves finished and other blocks alone. |
| DownloadingPieces.DownloadingPiece.FinishBlock | downloading_piece.go:106-114 | A requested block becomes finished, with one downloader less and none remembered; other blocks stay. |
| Pickers.AddBlocksPicks | piece_picker.go:37-47 | A pass over the list returns distinct blocks on offer, each taken once, at most as many as asked for, and all on offer when it falls short. |
| Pickers.ChooseKeepsBlocks | piece_picker.go:55-65 | Starting the next piece changes the state of no block and keeps the picker well formed. |
| Pickers.ChooseUnsets | piece_picker.go:55-65 | Every started piece lowers the number of unset piece bits, so the recursion of PickPieces ends. |
| Pickers.PickPiecesPicks | piece_picker.go:67-81 | At any speed, across both passes and the recursion: at most as many blocks as asked for, no block twice, none finished, each one free or taken over from one forgotten or slower downloader, and no other block changes. |
| Pickers.PickPiecesExact | piece_picker.go:67-81 | A pick returns exactly as many blocks as were asked for, or all available ones in the whole file. |
| Pickers.SlowPickTakesFreeBlocks | piece_picker.go:67-81 | For a slow peer the result has exactly min(n, free blocks of the file) blocks, all free before, and they are exactly what is no longer free; untouched pieces count in full. |
| Pickers.EndGamePicksIff | downloading_piece.go:59-77 | A peer that is not slow gets no other blocks than those nobody requested and those that one slower or forgotten downloader holds alone; when it gets fewer than it asked for, it got all of them. |
| Pickers.FasterTakesOver | downloading_piece.go:59-77 | A block picked free by one peer is given to a second one exactly when that is faster, and then to no third one at any speed. |
| Pickers.AbortRemembersOther | downloading_piece.go:82-104 | When one of two downloaders gives a block back, it is offered to the peers faster than the last downloader if that one stayed, and to every peer that is not slow if it left. |
| Pickers.AddBlocksIsFirst | piece_picker.go:37-47 | A pass takes the blocks on offer that come first in the list of pieces. |
| Pickers.PickOrder | piece_picker.go:67-81 | Before any block is requested again every free block of the started pieces is picked, and before a new piece is started everything on offer in the started ones is. |
| Pickers.PickStartsUsedPieces | piece_picker.go:67-81 | Picking starts every untouched piece of which it returns a block and no other piece that has blocks, and no piece loses its state. |
| Pickers.PickKeepsCounts | downloading_piece.go:59-77 | Picking keeps the downloader counts consistent; a block requested again had exactly one downloader, who was forgotten or slower, and never for a slow peer. |
| Pickers.RemovePieceList | piece_picker.go:164-167 | Swap-removal takes exactly one piece off the list and keeps all others as they are. |
| Pickers.RemovePieceLook | piece_picker.go:115-129 | Taking a piece off the list marks exactly its blocks as done and keeps the picker well formed. |
| Pickers.FinishedIffAllHave | piece_picker.go:131-133 | Count and empty list say finished exactly when every piece is in the have state. |
| PiecePickers.PiecePicker.CreatePiecePicker | piece_picker.go:15-17 | A new picker has every piece untouched. |
| PiecePickers.PiecePicker.GetDownloadingPiece | piece_picker.go:27-35 | Finds the piece in the list, or the end of the list. |
| PiecePickers.PiecePicker.AddDownloadingBlocks | piece_picker.go:37-47 | The loop over the pieces, with its early break, computes the pass and keeps all pieces apart. |
| PiecePickers.PiecePicker.ChooseNextPiece | piece_picker.go:55-65 | Starts the first piece whose bit is unset, if there is one. |
| PiecePickers.PiecePicker.PickPieces | piece_picker.go:67-81 | The recursive method on the objects computes the pick the lemmas are about, and ends. |
| PiecePickers.PiecePicker.AbortBlock | piece_picker.go:83-92 | Aborts the block in its piece if that is in the list, and says whether it was. |
| PiecePickers.PiecePicker.FinishBlock | piece_picker.go:94-101 | Finishes the block in its piece if that is in the list. |
| PiecePickers.PiecePicker.RemoveDownloadingPiece | piece_picker.go:103-113 | Takes the piece off the list and clears its bit: the piece is untouched again. |
| PiecePickers.PiecePicker.SetHave | piece_picker.go:115-129 | Takes the piece off the list and keeps its bit: the piece is in the have state. |
| PiecePickers.PiecePicker.IsFinished | piece_picker.go:131-133 | Says whether all bits are set and no piece is in the list. |
| PiecePickers.PiecePicker.GetPieces | piece_picker.go:150-153 | A copy of the piece bits that shares nothing. |
| PiecePickers.PiecePicker.GetDownloadedBlocks | piece_picker.go:155-162 | Copies of the finished bits of exactly the listed pieces. |
| PiecePickers.PiecePicker.FromResumeData | piece_picker.go:135-148 | Rebuilds a picker from saved bits in any order of the map; nothing is shared with the arguments. |
| PiecePickers.RestoreKeepsPieces | piece_picker.go:131-162 | Saving and restoring, in any order of the map, keeps the none, downloading or have state of every piece and every finished bit, frees exactly the requested but unfinished blocks, and restores the invariant. |
| PiecePickers.WantsMoreUntilFinished | proto/transfer.go:92-94 | The saved parameters want more data exactly while the picker is not finished. |
| PiecePickers.RestoreForgetsLastPiece | piece_picker.go:135-148 | A restored picker offers the blocks of an untouched piece as before exactly when it is not the last one, because the block count of the last piece is not restored. |
| ReceivingPieces.InsertKeepsFirst | piece_storage.go:16-56 | Inserting keeps the list strictly sorted and hashed to the first gap, adds exactly the new block, and a second arrival of a block changes nothing. |
| ReceivingPieces.StateIsDeterminedByContents | piece_storage.go:16-56 | What is stored determines the list, the hash index and the bytes hashed. |
| ReceivingPieces.ArrivalOrderIsIrrelevant | piece_storage.go:16-56 | Two arrival sequences with the same first data for each block lead to the same piece and hash. |
| ReceivingPieces.PermutedArrivals | piece_storage.go:16-56 | Any permutation of the same blocks leads to the same piece and hash. |
| ReceivingPieces.HashedInOrder | piece_storage.go:41-53 | The bytes fed to the hash are blocks 0 to hashBlockIndex-1 in order, and hashBlockIndex is the smallest missing index. |
| ReceivingPieces.CompleteIsHashedInOrder | piece_storage.go:16-62 | With all blocks stored, the incremental hash has seen what hashing all blocks in order at the end would see. |
| ReceivingPieces.ReceivingPiece.SkipBlocks | piece_storage.go:17-27 | Finds the insertion point, and whether the block is there already. |
| ReceivingPieces.ReceivingPiece.HashBlocks | piece_storage.go:41-53 | The hashing loop goes from where it stood to the first gap. |
| ReceivingPieces.ReceivingPiece.InsertBlock | piece_storage.go:16-56 | The method on the slice computes the insertion, keeps the invariant and reports duplicates. |
| Transfers.WriteAt | transfer.go:183-196 | Seek and write put the data at its offset and leave every other byte of the file alone. |
| Transfers.FirstRequest | peer_connection.go:243-247 | The request found is the first one for the block, and none is found only when there is none. |
| TransferSafety.InitHolds | transfer.go:145-155 | A transfer started without resume data satisfies the invariant. |
| TransferSafety.AskKeeps | transfer.go:254-283 | Handing out blocks keeps the invariant: counts stay equal to the outstanding requests, at most two each. |
| TransferSafety.AskFits | transfer.go:263-276 | The offsets of one ask fit the three slots of the request packet, so filling them is no panic. |
| TransferSafety.AskFillsSlots | transfer.go:263-283 | An ask adds as many requests as the packet has slots, or one for every block on offer, which for a slow peer are the free blocks of the file; each is a fresh request for its block, and the peer is closed exactly when nothing is on offer. |
| TransferSafety.ReceivePanicsIff | peer_connection.go:46-49 | In every state of the invariant a part panics exactly when it starts in a block the peer was asked for and ends before its begin, or behind the end of that block in the file. |
| TransferSafety.ReceiveKeeps | peer_connection.go:239-272 | Receiving any part, whole, cut short or not asked for, and handing over a complete block keeps the invariant. |
| TransferSafety.AbortKeeps | transfer.go:166-168 | Aborting a dead peer's block never panics and keeps the invariant. |
| TransferSafety.DeliveredIsRequestedOrFinished | transfer.go:169-205 | A delivered block whose piece is gone or holds it already is finished; any other is requested and unfinished, so FinishBlock never panics. |
| TransferSafety.FullPieceIsHashed | transfer.go:214-222 | When the last block of a piece is stored, the hashed bytes are the bytes of the file over the piece, and all its blocks are finished. |
| TransferSafety.CompleteOutcome | transfer.go:214-252 | Completing a full piece succeeds exactly when its hash is known and matches, and then the piece is in the have state; otherwise the run ends in one of three panics. |
| TransferSafety.DeliverCases | transfer.go:169-252 | Which deliveries are dropped as duplicates, which store a block, and which complete a piece. |
| TransferSafety.DeliverKeeps | transfer.go:169-252 | A delivery keeps the invariant, and panics exactly when it completes a piece whose hash is missing or does not match. |
| TransferSafety.StoreKeepsVerified | transfer.go:183-205 | Writing a block never touches the bytes of a finished piece. |
| TransferSafety.StepKeeps | transfer.go:158-283 | Every step of every peer and of the transfer keeps the invariant or is one of the known panics. |
| TransferSafety.RunKeeps | transfer.go:158-283 | Every run, under any interleaving, keeps the invariant. |
| TransferResults.FinishedPiecesMatchReceivedHash | transfer.go:214-242 | In every reachable state the bytes of every piece in the have state are in the file and hash to the entry for it of a hash set that was received, whatever the peers sent. |
| TransferResults.FinishedPiecesMatchTheHashSet | transfer.go:214-242 | When all peers send the same hash set, the bytes of every piece in the have state hash to its entry. |
| TransferResults.LaterHashSetDecides | transfer.go:165 | A hash set that arrives later replaces the first one: a finished piece matches it exactly when the two agree about that piece. |
| TransferResults.FinishedMeansAllVerified | piece_picker.go:131-133 | When the picker is finished, every piece of the file is verified. |
| TransferResults.FinishedIsNeverReported | transfer.go:241-251 | No run ever sends the finished message, because wasFinished is read after the piece left the list. |
| TransferResults.OnlyTheseReasonsPanic | transfer.go:158-283 | A run can only end over a part that does not fit, or over a missing, short or contradicting hash set: never over a slot of the request packet, a block index, an unrequested block or an unfinished piece. |
| TransferResults.QueueIsFirstInFirstOut | peer_connection.go:258-263 | Complete blocks are delivered in the order in which they became complete, one at a time. |
| TransferResults.RequestedIffOutstanding | downloading_piece.go:82-114 | In every state of the invariant the count of an unfinished block is the number of outstanding requests for it, at most two, and it is requested exactly when that is positive. |
| TransferResults.AbortFreesLastHolder | downloading_piece.go:82-104 | An abort frees its block exactly when nobody else holds it, and touches no other block. |
| TransferResults.RestoredContents | transfer.go:106-141 | Reading saved blocks back from the file restores exactly the blocks whose bit is saved, with the bytes on disk. |
| TransferResults.RestartRebuildsIncoming | transfer.go:106-141 | A restart rebuilds every listed piece exactly as it was, hash state included. |
| Restarts.SameIncoming | transfer.go:106-141 | The pieces read back from the file are the listed ones; every incoming piece of the saved transfer is among them, as it was. |
| Restarts.RestartInv | transfer.go:106-144 | With the block count of the last piece put right, a restarted transfer satisfies the invariant of the protocol; the queues of the saved one do not matter. |
| Restarts.RunSame | transfer.go:158-283 | Once the last piece is in the have state, every run is the same whatever block count is stored for it. |
| Restarts.RestartedNeverFinishes | piece_picker.go:135-148 | A transfer restarted without its last piece never finishes, in any run, because the restored picker gives that piece no blocks. |
| RestartSafety.StepKeepsAlive | transfer.go:158-283 | Every step of a restarted transfer, whatever its last piece was doing, keeps what safety needs: a started last piece without its block count is only never completed. |
| RestartSafety.SavedIsRestartable | transfer.go:182-239 | Whatever a process leaves behind can be restarted from: between two events, within the write of a block or before it is saved, with any bytes in the place of that block, after the save before a complete piece is hashed, and after the save of a piece that was given up; started pieces that were never saved may be missing. |
| RestartSafety.RestartKeepsAlive | transfer.go:106-144 | A restart from any such save keeps what safety needs, also when the block count was lost in an earlier restart. |
| RestartSafety.RestartedIsSafe | transfer.go:106-283 | After a restart from any state of the invariant, in every run, pieces in the have state are in the file and match the hash they were checked against, and only the known reasons panic. |
| RestartSafety.SafeAcrossRestarts | transfer.go:87-283 | Over any number of lives, each ending between two events or dying anywhere within a delivery, a cut-off write included, every piece in the have state is in the file and hashes to the entry of a hash set received in this or an earlier life, and no other panic than the known ones occurs. |
| TransferProgress.DeliverIsGood | transfer.go:169-252 | With a hash set that has the hashes of the data on the way, a delivery never panics, finishes its block, and keeps the state completable. |
| TransferProgress.CanComplete | transfer.go:158-283 | From every state of the invariant without a full piece left over, with a hash set that has the hashes of a target that agrees with what is stored and queued, some further events complete every piece. |
| TransferEnds.CanFinishIff | transfer.go:158-283 | Some run from a state of the invariant finishes exactly when the last piece has its block count or is in the have state, and no incoming piece is full already. |
| TransferEnds.EveryRunCanFinish | transfer.go:145-283 | Wherever a run of a new transfer got to without a panic, whatever the peers sent, some further events, beginning with a hash set for what was received, complete every piece. |
| TransferEnds.RestartedCanFinishIff | transfer.go:106-283 | A restarted transfer can finish exactly when it was saved with its last piece in the have state and without a piece that was full and not hashed yet. |
| TransferHonest.HonestDownloadIsExact | peer_connection.go:239-272 | In every run in which what arrives of the parts is a target's, each piece in the have state is the target's byte for byte, and the file of a finished transfer is the target, whatever the hash sets were. |
| TransferHonest.HonestNeverMismatches | transfer.go:214-252 | When data and hash sets are both the target's, with or without the terminal hash of a file that ends with a whole piece, a run can only panic over a part that does not fit its block or a piece complete before any hash set came. |
| TransferHonest.HonestCanFinish | transfer.go:158-283 | Wherever such a run got to, peers that send the target can complete it, and the file is then the target. |
| SavedFiles.SavedFileRestores | proto/transfer.go:44-90 | A picker's state written in any order of the map, read back and restored in any other order keeps the state of every piece and every finished block, and wants more data exactly while it is not finished. |
| TransferLoop.Connection.ReceivePart | peer_connection.go:239-272 | The handler of an announced part, on the connection's objects, does the protocol's receive step for every stream: the bytes go to the first request for the block, a complete block is handed over and swap-removed; a part nobody asked for, or cut short, fails. |
| TransferLoop.Connection.ReceiveCompressedPart | peer_connection.go:275-335 | The handler of a compressed part does the protocol's receive step for a part that reaches from the offset to the end of the block, with what comes out of it; it succeeds exactly when the block is requested and enough bytes come out. |
| TransferLoop.Connection.FindRequest | peer_connection.go:243-247 | Finds the first request for the block. |
| TransferLoop.Connection.RemovePendingBlock | peer_connection.go:41-44 | Swap-removal takes exactly one request off and keeps the others apart. |
| TransferLoop.Connection.AddRequest | transfer.go:270-273 | One more request with a fresh buffer of its own, and the range of its block. |
| TransferLoop.Transfer.constructor | transfer.go:43-58 | A new transfer is the start state of the protocol. |
| TransferLoop.Transfer.OnHashSet | transfer.go:165 | A received hash set replaces the one before. |
| TransferLoop.Transfer.OnAbort | transfer.go:166-168 | The handler on the objects does the protocol's abort step. |
| TransferLoop.Transfer.OnData | transfer.go:169-252 | The handler on the objects does the protocol's deliver step, including the completion of a piece. |
| TransferLoop.Transfer.Complete | transfer.go:214-252 | Comparing the hash, marking the piece twice and dropping it from the incoming ones does the protocol's completion. |
| TransferLoop.Transfer.OnPeer | transfer.go:254-283 | The handler on the objects does the protocol's ask step: the requests of the connection grow by the blocks picked, the packet has the range of each of them in its slot and zeros in the others, and the connection is closed exactly when there are none. |
| SearchPack.PackRequest | proto/search.go:390-463 | The loops over the operator stack compute the right-to-left conversion the lemmas are about. |
| SearchPack.PackQuery | proto/search.go:402-447 | Packing any query of the grammar, in any context, emits its prefix form and leaves only its first operator on the stack. |
| SearchPack.PackCompiles | proto/search.go:390-463 | Every query of the grammar is packed into exactly the prefix form of its right-associated, equal-precedence tree. |
| SearchPack.PackedQueryReadsBack | proto/search.go:390-463 | A prefix reader recovers the tree from the packed query with nothing left over. |
| SearchPack.EveryTreeHasAQuery | proto/search.go:390-463 | The trees that queries of the grammar stand for are exactly those whose leaves are values, so the compiler reaches every expression. |
| SearchPack.BalancedPacksAll | proto/search.go:390-463 | A list with balanced parens is never refused, wherever its operators stand, and the result is a permutation of its other entries. |
| SearchPack.PackRefusesIff | proto/search.go:418-460 | A list is refused exactly when an open paren finds no close paren, or a close paren is left with no operator below it. |
| SearchPack.UnopenedCanPass | proto/search.go:449-460 | A list with a close paren too many that is packed without an error. |
| SearchBuild.AddOperand | proto/search.go:194-237 | An AND is inserted exactly between an operand that ends and one that starts. |
| SearchBuild.EndWord | proto/search.go:331-357 | A word becomes an operator or a string; an operator at the beginning and a second operator in a row are errors. |
| SearchBuild.CheckLengths | proto/search.go:251-269 | The first length that is out of bounds decides the error; lengths are counted in bytes. |
| SearchBuild.AddFilters | proto/search.go:271-321 | The filter entries are the conditions in order, joined by AND; folders become one parenthesized condition. |
| SearchBuild.BuildEntries | proto/search.go:239-388 | The loop over the characters computes the reading the lemmas are about, errors included. |
| SearchText.LexQuery | proto/search.go:323-371 | Reading any way to write a query, behind any entries, appends the entries of the query with AND where they follow an operand. |
| SearchText.TypedQueryCompiles | proto/search.go:239-463 | However a query is typed - extra spaces, quotes, AND written or implied - building and packing give the prefix form of the conjunction of all filters with the whole query. |
| SearchText.TypableIff | proto/search.go:323-371 | An expression can be typed exactly when its words are nonempty, without quotes and parens, and no operator's name. |
| SearchText.BuiltIsSeparated | proto/search.go:194-388 | Whatever is typed, accepted entries have an operator between any two operands, never two in a row and none first. |
| SearchText.OperatorAfterQuery | proto/search.go:378-385 | An operator typed behind a query and a space is refused exactly when no space follows it; otherwise the entries are those of the whole query and the operator. |
| SearchEnds.OperatorAtTheEnd | proto/search.go:323-385 | Whatever is typed and with any filters, accepted entries end in an operator exactly when its name is the last word, quotes aside, and a space outside quotes follows it with nothing but spaces and empty quotes behind; a text not refused before its end is refused over its last word exactly when that is an operator's name. |
| SearchEnds.ParensAreEntries | proto/search.go:323-371 | In every accepted text each paren that is typed becomes an entry, inside quotes too, and no other does but the two of the condition for folders. |
| SearchMeaning.FiltersAdmit | proto/search.go:271-321 | The conditions that the filters add admit exactly the files that pass the filters: sizes and source counts strictly beyond their bounds, length and bitrate at least theirs, equal type, extension and codec; zero and empty are no filter, archives and images are programs, folders are collections that are no link. |
| SearchMeaning.TypedQueryMeans | proto/search.go:239-463 | What is sent for a query typed in any way reads as an expression that admits exactly the files which pass all filters and satisfy the whole query. |
| StateBuffers.NumberRoundTripIff | proto/common.go:270-276 | A number comes back from its little-endian bytes exactly when it fits the width. |
| StateBuffers.StateBuffer.ReadNumber | proto/common.go:38-96 | Reads a little-endian number and advances, or sets the sticky error and gives zero. |
| StateBuffers.StateBuffer.ReadSlice | proto/common.go:98-196 | Reads the next bytes, or sets the sticky error; an empty slice is an error of its own. |
| StateBuffers.StateBuffer.WriteNumber | proto/common.go:249-296 | Writes the little-endian bytes that fit the width and advances, or sets the sticky error. |
| StateBuffers.StateBuffer.WriteBytes | proto/common.go:249-296 | Lays the bytes over the buffer at the position and changes no other byte, or sets the sticky error. |
| StateBuffers.GetContainerAt | proto/common.go:525-544 | A nonempty container of less than 65536 bytes is read back and its bytes consumed. |
| StateBuffers.GotContainerIsWellFormed | proto/common.go:525-536 | Whatever container is read without an error is nonempty and fits its length field. |
| Tags.ReadTag | proto/tag.go:395-461 | The method on the buffer computes the reading, the type switch after an error included. |
| Tags.WriteTag | proto/tag.go:463-492 | The method on the buffer computes the writing, the overridden error included. |
| Tags.TagSize | proto/tag.go:494-520 | Size is the length of what is written, and -1 for an unknown type. |
| Tags.TagRoundTripIff | proto/tag.go:395-520 | Put writes exactly Size bytes, and Get consumes exactly them and returns the same tag, exactly for the well-formed tags. |
| Tags.GotTagIsWellFormed | proto/tag.go:395-461 | Whatever tag is read without an error is well formed. |
| Tags.PutTagWrites | proto/tag.go:463-492 | Without room for the tag the error is set. |
| Tags.ShortTagFails | proto/tag.go:395-461 | A buffer that ends anywhere inside a tag gives an error. |
| Tags.CreatedSurvivesIff | proto/tag.go:614-649 | Which created tags survive the wire, for every kind of value, id and name. |
| Tags.CreatedIsRead | proto/tag.go:526-649 | What was put into a tag is what the accessor of its kind reads, id and name are kept, and a tag passes the test of its kind and no other; a text of 1 to 16 bytes is written without a length field, every other one with it. |
| Tags.CreatedWireForm | proto/tag.go:463-649 | The bytes of a made tag without a name: its type with the highest bit set, the id, the length of a blob in four bytes, and the value with numbers lowest byte first. |
| Tags.ShortTextWireForm | proto/tag.go:463-649 | A text of 1 to 16 bytes has its length in its type byte. |
| Tags.LongTextWireForm | proto/tag.go:463-649 | An empty or longer text has its length in two bytes. |
| Tags.TagNumberIff | proto/tag.go:538-556 | 16-bit and 64-bit numbers come back from their tags; a 32-bit number does exactly when its bytes are a palindrome, because it is read big-endian. |
| Packets.ReadCollection | proto/common.go:465-484 | The loop reads the tags up to the count or the first error. |
| Packets.WriteCollection | proto/common.go:486-493 | The loop writes the count and every tag. |
| Packets.CollectionSize | proto/common.go:495-503 | Size is the length of what is written for the tags of known type, less one for every other tag. |
| Packets.GetCollectionAt | proto/common.go:465-503 | A list of at most 1000 well-formed tags is read back and its bytes consumed. |
| Packets.GotCollectionIsWellFormed | proto/common.go:465-484 | Whatever list is read without an error has at most 1000 tags, all well formed. |
| Packets.PacketRoundTripIff | proto/common.go:505-521 | Put fills exactly Size bytes and Get reads the same packet back, exactly when its tags are well formed and at most 1000. |
| Packets.ReadPacket | proto/common.go:511-513 | The method on the buffer computes the reading the round trip is about. |
| Packets.WritePacket | proto/common.go:515-517 | The method on the buffer computes the writing the round trip is about. |
| Packets.PacketSize | proto/common.go:519-521 | Size is the length of what is written for the packet without its tags of unknown type, less one for each of those. |
| Packets.NoRoomForPacket | proto/common.go:249-296 | Without room for the packet the error is set. |
| Packets.ShortPacketFails | proto/common.go:511-513 | A buffer that ends anywhere inside a packet gives an error. |
| ResumeData.ReadBits | proto/bitfield.go:24-36 | The method on the buffer reads the bit count and its bytes. |
| ResumeData.WriteBits | proto/bitfield.go:38-40 | The method on the buffer writes the bit count and the bytes. |
| ResumeData.ReadHashSet | proto/peer.go:110-124 | The loop reads all hashes; too many of them are an error. |
| ResumeData.WriteHashSet | proto/peer.go:126-132 | The loop writes the hash, the count and all hashes. |
| ResumeData.HashSetSize | proto/peer.go:134-136 | Size is the length of what is written. |
| ResumeData.ReadParameters | proto/transfer.go:44-65 | The method on the buffer reads the fields and fills the map in a loop. |
| ResumeData.WriteParameters | proto/transfer.go:67-75 | The method writes the fields and the map, each key once, in an order of its own. |
| ResumeData.ParametersSize | proto/transfer.go:77-90 | Size is the length of what is written, for every order in which the map may be written. |
| ResumeData.SameLengthInAnyOrder | proto/transfer.go:77-90 | The length of the written map does not depend on the order. |
| ResumeData.PutParametersWrites | proto/transfer.go:67-75 | The parameters are written completely and over nothing else, or the error is set. |
| ResumeData.ParametersRoundTripIff | proto/transfer.go:44-90 | For every order of the map, Put writes exactly Size bytes and Get returns the same hashes, name, size, pieces and map, exactly when the parameters are well formed. |
| ResumeData.GotParametersAreWellFormed | proto/transfer.go:44-65 | Whatever parameters are read without an error are well formed. |
| ResumeData.ShortParametersFail | proto/transfer.go:44-65 | A resume file cut short anywhere is an error. |
| Policies.ConnectIsStrictWeakOrder | policy.go:171-197 | The comparison is irreflexive, asymmetric and transitive, incomparability is transitive, and only peers with equal keys are incomparable. |
| Policies.ConnectIsKeyOrder | policy.go:171-197 | The comparison is the dictionary order on fail count, locality, last and next connection, and source rank. |
| Policies.RemoveIsKeyOrder | policy.go:72-86 | The comparison for removal is the dictionary order on fail count and resume-data source. |
| Policies.DhtHasNoRank | policy.go:51-70 | A DHT source never changes the rank, because its test masks with the server bit. |
| Policies.SourceRankIff | policy.go:51-70 | Sources rank by the server first, then by an incoming connection, then by the resume data. |
| Policies.ConnectPrefers | policy.go:171-197 | Fewer failures decide first, then a local address, the earlier attempt, the earlier date, and the higher source. |
| Policies.RemovePrefers | policy.go:72-86 | More failures decide first, then the resume data as a source. |
| Peers.LocalIff | proto/common.go:384-390 | The local addresses are exactly those of 10/8, 172.16/12, 192.168/16, 169.254/16 and 127/8. |
| Policies.EligibleIff | policy.go:209-230 | A peer may be tried exactly when it has no connection and at most 5 failures, was never tried or waited 10 seconds for each failure, and its date has come. |
| Policies.EraseCandidateIff | policy.go:35-45 | A peer may be erased exactly when it has no connection and more than 5 failures. |
| Policies.Policy.PeerConnectionClosed | policy.go:236-247 | After its k-th failure a peer is found at no time before 10k seconds have passed and its date has come, and from then on it may be; after the sixth failure never again; other peers stay as they are. |
| Policies.Policy.NumConnectCandidates | policy.go:199-207 | Counts exactly the peers that are connect candidates, in any order of the map. |
| Selections.BeatenIff | policy.go:209-234 | Some order makes the search loop return an endpoint that another one beats exactly when the empty endpoint may be returned, nothing beats it, and it beats another one. |
| Selections.MissesIff | policy.go:118-147 | Some order makes the search loop return nothing although it could, or a beaten endpoint, exactly when the empty endpoint may be returned and nothing beats it. |
| Policies.Policy.FindConnectCandidate | policy.go:209-234 | For every order of the map: nil exactly when no peer may be tried and none has the empty endpoint, and then every peer has a connection, more than 5 failures, 10 seconds for each failure not over, or a later date; without the empty endpoint what is found has none of these; and no eligible peer strictly beats the result unless the peer at the empty endpoint is eligible, a best one, and beats another. |
| Policies.Policy.EmptyEndpointHidesBest | policy.go:209-234 | Some order of the whole map yields a peer that an eligible one beats exactly when the peer at the empty endpoint is eligible, no eligible peer beats it, and it beats one. |
| Policies.Policy.ErasePeers | policy.go:118-147 | Erases at most one peer, one that may be erased; a full list loses one whenever it can, and none that is a better one to remove remains, unless the peer at the empty endpoint may be erased and is a best one to remove. |
| Policies.Policy.EmptyEndpointIsSpared | policy.go:118-147 | Some order of the map makes a full list keep everything it could lose, or lose a peer although another is a better one to remove, exactly when the peer at the empty endpoint may be erased and is a best one to remove. |
| Policies.Policy.AddPeer | policy.go:101-116 | A full list first loses at most one peer, one without connection and with more than 5 failures, whenever it has one, the empty endpoint apart; without that nothing is added or changed; otherwise the peer is added exactly when its endpoint is not listed any more, a known peer gains its sources, and every other entry stays. |
| Sessions.Transfer.WantMorePeers | transfer.go:293-300 | True exactly for a transfer that is not failed, paused, finished, reading or stopped and has a peer without connection and with at most 5 failures. |
| Sessions.Session.EnumerateCandidates | session.go:370-421 | The loop ends; at exit old connections are kept, every connected peer is the session's sole entry for its endpoint, other peers were at most put off, and a peer that was ready still is, is connected or was put off by 15 seconds; there are at most as many new connections as eligible peers, or one more for the empty endpoint; the loop ends with the first pass that meets the limit, or with the two idle passes for every transfer after its last connection; every transfer that does not know the empty endpoint has one ready peer fewer for every pass, or none; and when no peer is shared between transfers, the numbers of ready peers decide how many are connected. |
| Sessions.LimitPassedIff | session.go:410-421 | For transfers that share no peer, the limit per second is passed exactly when no pass ends on it and the passes together can hand out more; then every ready peer is connected: the passes go on until none is left. |
| Sessions.OneOvershoots | session.go:376-421 | Whatever the transfers share, the limit is passed exactly when one pass starts with fewer connections left to hand out than there are transfers, and makes more than those. |
| Sessions.AllAreServed | session.go:370-421 | When the loop ends without the limit, a transfer that does not know the empty endpoint and had at most two ready peers for every transfer, and one more, has none left, whatever the transfers share. |
| Sessions.SingleKeepsLimit | session.go:410-421 | A single transfer hands out its ready peers up to a positive limit, and no more. |
| Sessions.PairPassesOddLimit | session.go:410-421 | Two transfers with equally many ready peers pass every odd limit below their sum and connect all of them. |
| Sessions.Session.Pass | session.go:376-404 | A pass in any order of the transfers lowers the measure by at least the connections it makes; every transfer that has a ready peer, and not the empty endpoint, has one fewer after it; when no peer is shared, it connects one ready peer of every transfer that has one, and no other. |
| Sessions.Session.Visit | session.go:385-403 | One transfer chooses a ready peer if it has one: it is connected when the session has no entry for its endpoint, and otherwise put off by 15 seconds; either way it is ready in no transfer any more and the measure drops. When no peer is shared it is connected. |
| Sessions.Session.SoleConnection | session.go:388-396 | No two peers get a connection for the same endpoint. |
| Sessions.Session.Unregister | session.go:447-458 | A connection that ends leaves the session, and its peer is eligible again exactly when it has at most 5 failures, 10 seconds for each failure are over and its date has come. |

## Left out

- Sockets, the listener, logging, stdin commands, zlib, and errors of opening, seeking, reading, writing or syncing the file: writes are total, and decompressed data is given.
- MD4 itself: a function of the bytes written.
- Data races on the requested blocks: each handler is one atomic step.
- The resume data a transfer sends after each step: `GetPieces`, `GetDownloadedBlocks` and `ResumeData` cover what is in it.
- Statistics, speeds and the rest of the session's tick (server reconnects, source requests, shutdown).
- Wire bytes of search entries: operators are all written alike, so search properties are about entry lists.
- Incoming connections (`newConnection`): single field updates.
- Other packets (PieceBlock, Hello, PacketHeader, Status, FoundFileSources, CompressedPart, RequestParts, MiscOptions): they add plain field lists or do not round-trip as written.
- Strings that are no valid UTF-8 in search requests: characters are code points, lengths are counted in bytes.
- DownloadingPieces.DownloadingPiece.PickBlock: a peer's speed is a constant of the object, so a change between two calls is covered by the functions on values only.
- DownloadingPieces.DownloadingPiece.AbortBlock: requires an index of the piece; the original's own bound check lets the length through and indexes past the end.
- Transfers.WriteAt: a write behind the end fills the hole with zeros; files larger than the sequence type of a machine are not distinguished.
- TransferLoop.Transfer.OnData: requires that the step does not panic; when it does is said by DeliverKeeps.
- TransferLoop.Transfer.OnPeer: requires the invariant of the protocol, which makes every picked block start inside the file and the blocks fit the packet.
- TransferLoop.Connection.ReceivePart: requires that the step does not panic; when it does is said by ReceivePanicsIff.
- TransferLoop.Connection.ReceiveCompressedPart: what comes out of the decompressor is given; requires that the offset is not behind the end of its block, where the original panics: ReceivePanicsIff for a part without bytes.
- TransferResults.FinishedPiecesMatchReceivedHash: for a transfer started without resume data; for a restarted one see SafeAcrossRestarts.
- RestartSafety.SafeAcrossRestarts: a save is either complete or not made, the file is read back without errors, and nobody else changes it.
- TransferProgress.CanComplete: says that some events lead to the end, not that a scheduler brings them about.
- Tags.ReadTag: reads into a new tag; leftovers of a tag that is read into twice are not modelled. The same holds for collections, packets and parameters.
- ResumeData.ReadBits: bit fields are values here; sharing of their bytes is covered in BitFields only.
- SearchText.TypedQueryCompiles: words contain no parens, because parens become entries even inside quotes, and a quoted AND, OR or NOT is an operator.
- Sessions.Session.EnumerateCandidates: when transfers share peers, or ready peers have a connection already, how many connections each pass makes is not computed from the peers, and transfers that know the empty endpoint are not promised to be served.
