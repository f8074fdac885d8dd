# Verified models of the ray-traversal pipeline and of the Feather server

This project models the parts of two programs in one repository whose correctness is hardest to see:

* a clocked **ray-traversal pipeline** (`sw/src`): traversal units that walk rays through a 64³ grid of voxels,
  reading through a multi-port FIFO L2 cache that is backed by an L3 cache, and an orchestrator that hands out
  pixels to the units;
* the core of a **game server** (`server/feather`): the wire codec with compression and stream encryption, the
  inventory window, event delivery in the entity-component system, the index of chunk subscriptions, the noise
  interpolator, the column composer, the player counter and entity metadata.

Code that changes state is a class or a method with loops, proved against functions on values; the theorems are
lemmas about those functions. Lookup tables, ciphers, compression, packet formats, the random generator and the text
check are parameters, so that the results hold for all of them.

## How the files fit together

| area | files |
|---|---|
| arithmetic, voxels | `FixedPoint`, `Voxels` |
| caches | `CacheModel` (values and laws), `Caches` (classes) |
| rays | `Traversal` (the walk), `VtuModel` (unit and reference, values), `Vtu` (class) |
| machine | `Pipeline` (units and caches together), `OrchestratorModel`, `Orchestration` (laws), `Orchestrator` (classes and render loops) |
| codec | `Bits`, `VarInts`, `Cfb8`, `CodecModel`, `PacketStream` (laws), `Codec` (class), `Metadata` |
| windows | `Slots`, `Layout`, `WindowModel`, `WindowLaws`, `Window` (class) |
| events | `EcsModel`, `EventRuns` (runs of arbitrary systems), `EventLaws` (runs of operations), `Ecs` (classes) |
| subscriptions | `Views`, `Subscribers` (one player), `Players` (all players, values and laws), `Subscriptions` (class of the index), `Server` (class) |
| players as entities | `Components`, `PlayerSystems` (what the systems do to an entity), `PlayerRuns` (other systems, new players), `EcsPlayers` (whole runs) |
| the rest | `Noise`, `Composition`, `PlayerCount`, `Options` |

## Where the code and what is said about it differ

The models follow the code. Where a promised property is false of it, a lemma says exactly when it holds, and another
one gives a case in which it fails unless the condition names all such cases anyway.

* `server/feather/feather/ecs/src/lib.rs:47` says that every event is observed exactly once by each system. Events on
  entities are not, if another system inserts one of the same kind on the same entity less than a tick before or, with
  another value, before the last system has run (`EventRuns.SeenByAllIff`, `EventLaws.EventsCanBeMissed`). Those that
  are older than the first tick are not, if a system but the last replaces them in the first tick
  (`EventLaws.EarlyEventsIff`, `EventLaws.EarlyEventsCanBeMissed`).
* For that reason a player that changes chunks in the tick after the one in which its join was handled loses a view
  update; its subscriptions then are wrong for good, even after it has left. Numbers of clients are used again, so that
  the next players with that number are subscribed to chunks that they do not see (`Subscribers.ReusedNumberIsWrong`
  is a case of it). `Players.SubscribedIff` says, for whole runs of the server, that a client's subscriptions are right
  exactly if neither its player nor an earlier holder of its number has done that; `EcsPlayers.SubscribedIff` says it of
  runs of the entity-component system.
* A body that is compressed must not be empty, which a threshold of 0 allows (`CodecModel.UnpackInvertsIff`).
* `encode` does not give the right frame after everything that can happen to a codec. What a failed read has left in the
  compression buffer goes out in front of the next compressed body (`CodecModel.FrameAfterIff`), and what a failed write
  has left in the staging buffer in front of the next packet (`CodecModel.FrameAfterFailureIff`). Everything that is in
  the output buffer is enciphered with the frame: what was there before stays as it was, for every cipher, exactly if
  there was nothing (`PacketStream.OldOutputStaysIff`), and the reader can get a packet that nobody has sent
  (`PacketStream.OldOutputIsMisread`). These three concern other uses of the public codec only: in
  `server/feather/feather/server/src/connection_worker.rs` one codec only reads (line 166) and another one only encodes
  (line 213), into a buffer that is cleared after each packet, and an error ends the connection (lines 228-240).
* Metadata entries are not all read back as they were written (`Metadata.EntryRoundTripIff`): an optional number is
  written in one format and read in another, block id 0 comes back as none, a position below 0 is refused. Index 0xFF
  ends a map (`Metadata.MetadataRoundTripIff`).
* The player counter wraps around if the maximum is the largest number of 32 bits (`PlayerCount.ExactIff`); this is
  the arithmetic of a release build, a debug build would panic there.
* A unit and the reference disagree on rays that start outside of the grid, for some memories exactly if the unit's
  walk enters the grid (`VtuModel.OutsideOriginsAgreeIff`, `VtuModel.OutsideOriginsCanDisagree`), and on the normal of
  a block that is hit where the ray starts, if the unit has been used before (`VtuModel.NormalsAgreeUnlessStale`).
* A frame shows what the reference cast finds, in the orchestrator's own colours and light
  (`Orchestration.FrameShowsCasts`). It is not the picture that `mock_render` draws: that has one colour,
  (98, 168, 98), for everything but air and water, and lights each pixel with the normal of the pixel before.
* `View::contains` holds for the centre of an empty view, which `iter` does not yield (`Views.ContainsIffIter`).
* `take_half` takes the larger half; the leggings area takes a leather helmet and no leather leggings; `frame_done_out`
  is high during all of the last pixel and not for one cycle; the documentation of the noise index says `y << 12` where
  the code has `y << 8`; an ocean column gets soil on its uppermost ground only, unlike the comment about columns
  (`Composition.OceanColumn`).

## Model

| member | source | states |
|---|---|---|
| FixedPoint.MulRoundsDown | sw/src/math/fixed.rs:126-135 | a product that fits is the exact one rounded down |
| FixedPoint.FloorIsBelow | sw/src/math/fixed.rs:53-55 | the floor is the whole number at or below, and whole numbers of up to 12 bits are exact |
| FixedPoint.ProductsWrapOnce | sw/src/math/vec3.rs:38-48 | scalar and vector products of integers: each product is rounded down, and what does not fit wraps once |
| FixedPoint.CrossIsRightHanded | sw/src/math/vec3.rs:38-44 | the vector product is right-handed |
| FixedPoint.NormalizedIsScaled | sw/src/math/vec3.rs:22-28 | normalizing multiplies the components by what the table gives for the squared length |
| Voxels.MemoryLayout | sw/src/cache/mock.rs:26-40 | there are voxels with coordinates from -32 to 31, one step along x is one cell of the memory, along y 64 and along z 4096 |
| Voxels.CellsAreVoxels | sw/src/cache/mock.rs:26-40 | every cell of the memory, by its number, belongs to exactly one voxel of the grid, what is read at that voxel is the block of that cell, and outside the grid there is none |
| CacheModel.FirstMiss | sw/src/cache/l2.rs:101-112 | the first port that wants a block and has no answer, if there is one |
| CacheModel.Lookup | sw/src/cache/l2.rs:84-98 | a cached value exactly if the key is cached |
| CacheModel.FirstMissIsRequested | sw/src/cache/l2.rs:101-112 | after an edge L3 is asked exactly if some port has asked and got no answer, and for the address of the first such port |
| CacheModel.FillKeepsCoherence | sw/src/cache/l2.rs:63-73 | the key that is filled in is not cached yet, so that the duplicate check cannot fail, and all entries stay true |
| CacheModel.EdgeKeepsCoherence | sw/src/cache/l2.rs:51-113 | one edge of both caches, with their resets in any combination, keeps keys distinct, values true and the request to L3 for an uncached address; every port that is answered is answered with the memory's block, Air out of bounds |
| CacheModel.EveryRunIsCoherent | sw/src/cache/l2.rs:51-113 | over every run of port requests and joint resets, for every number of ports and entries: coherent, all answers true, and the entries are the most recent fills since the reset in FIFO order, with distinct keys |
| Caches.L3Cache.RisingClkEdge | sw/src/cache/l3.rs:23-38 | the register machine does what the L3 edge function says |
| Caches.L2Cache.RisingClkEdge | sw/src/cache/l2.rs:51-113 | the in-place loops over ports and entries do what the L2 edge function says; the duplicate check holds |
| Traversal.StartMeetsFaces | sw/src/vtu.rs:68-96 | on each axis: the ray starts in the voxel of its origin, steps in the sense of its direction, crosses a face each time the reciprocal's size, and the first one at the reciprocal times the distance to the next multiple of 1 ahead or behind, never if the direction is 0 |
| Traversal.FirstHitIsFirst | sw/src/vtu.rs:101-153 | the search stops at the first block on the walk that is not Air within its limit, and misses only if there is none |
| Traversal.NeverReenters | sw/src/vtu.rs:101-153 | a walk that has left the grid never comes back, within 0x6000 steps |
| Traversal.StepGuardIsIdle | sw/src/vtu.rs:101-112 | from inside the grid the walk leaves it before any step limit of at least the longest stay can matter |
| Traversal.WalkIsSortedMerge | sw/src/vtu.rs:116-152 | without overflow the walk merges three sorted progressions: positions and crossing times count the steps taken on each axis, each step takes an earliest crossing, and the last crossing on any axis is not after the next one on any other |
| Units.VoxelTraversalUnit.MockCast | sw/src/vtu.rs:65-154 | the reference loop shows the outcome of the bounded search |
| Units.VoxelTraversalUnit.RisingClkEdge | sw/src/vtu.rs:156-288 | the clocked unit does what the edge function says to its registers and its cache port, and nothing else |
| VtuModel.InitMeetsFaces | sw/src/vtu.rs:182-226 | a unit that is started has its registers set up for the same, and asks for the voxel of the origin |
| VtuModel.ResetClears | sw/src/vtu.rs:160-179 | a reset clears the outputs and the request |
| VtuModel.NormalFacesRay | sw/src/vtu.rs:251-256 | the normal of a face has length one and looks against the step across it |
| VtuModel.UnitFindsWhatMockFinds | sw/src/vtu.rs:101-153 | from inside the grid the unit's search gives the reference's outcome if that takes at most 110 steps, and a miss otherwise |
| VtuModel.MockGuardNeverDecides | sw/src/vtu.rs:101-112 | the reference's guard of 220 steps never decides its answer from inside the grid |
| VtuModel.NormalsAgreeUnlessStale | sw/src/vtu.rs:218-256 | the normals agree if and only if no axis is left over from the previous ray or the voxel at the origin is Air |
| VtuModel.OutsideOriginsAgreeIff | sw/src/vtu.rs:101-112 | from outside the grid unit and reference agree for every memory if and only if none of the unit's first 111 positions is in the grid |
| VtuModel.OutsideOriginsCanDisagree | sw/src/vtu.rs:101-112 | a concrete ray from outside on which they do not |
| VtuModel.EdgeKeepsJob | sw/src/vtu.rs:228-287 | with a truthful cache port an edge keeps a unit on its ray, and once done it keeps the outcome |
| Pipeline.CycleIsSound | sw/src/orchestrator.rs:108-122 | for any number of units a cycle keeps the caches coherent and shows the units true answers |
| Pipeline.CycleServesJobs | sw/src/orchestrator.rs:117-122 | for any number of units, each keeps to the ray it was started on until it shows the right outcome, whatever the others do |
| Pipeline.PortZeroIsServed | sw/src/cache/l2.rs:101-112 | an answer that is coming for port 0 arrives at the next edge; otherwise its address goes to L3 before all others |
| Pipeline.UnitZeroRefinesMock | sw/src/vtu.rs:156-287 | for every memory, cache size, number of units and ray from inside the grid: unit 0 shows an outcome within 224 edges, and it is the reference's voxel if found within 110 steps and Air otherwise, with the reference's normal after at least one step |
| Pipeline.OutcomeStays | sw/src/vtu.rs:228-231 | the outcome that is shown stays until the next start |
| OrchestratorModel.FirstDone | sw/src/orchestrator.rs:185-190 | the unit with the lowest number among those that are done |
| OrchestratorModel.PixelsAreInRows | sw/src/orchestrator.rs:215-220 | 160 pixels are in a row: the ray of each leads to the first pixel plus its column times one vector plus its row times the other, less the camera's position, wrapped once |
| OrchestratorModel.DrawHandsOut | sw/src/orchestrator.rs:191-226 | a draw changes one pixel and one unit, which is started on the next pixel, with the direction to its row and column |
| OrchestratorModel.LatchIs | sw/src/orchestrator.rs:144-163 | for any heading a basis is made of it, the viewport of 2.5 by 2 is at distance 1 against it, and the first pixel is at the upper left |
| OrchestratorModel.Palette | sw/src/orchestrator.rs:200-208 | the channels of the blocks' colours, cut to 5, 6 and 5 bits |
| OrchestratorModel.LitIsProduct | sw/src/math/rgb565.rs:39-45 | a lit channel is its product with the light, rounded down and cut to 8 bits |
| OrchestratorModel.FacesAreLit | sw/src/orchestrator.rs:193-211 | the light on a face that is hit, by its axis and the step across it: 0.4, and 0.2 times the part of the sun against the step; the sky is not lit |
| Orchestration.ResetEstablishes | sw/src/orchestrator.rs:124-139 | a cycle with the reset held establishes the invariant from any state |
| Orchestration.ResetBlanks | sw/src/orchestrator.rs:124-139 | a reset blackens the frame, and a new one follows |
| Orchestration.StepKeepsInv | sw/src/orchestrator.rs:108-228 | for any number of units, every edge keeps: no write out of the frame, no ray handed out twice but for the first pixel, every pixel drawn has the colour of its own ray for the latched camera |
| Orchestration.StepKeepsFirstPixel | sw/src/orchestrator.rs:165-227 | for any number of units: the first pixel, with which all of them start, is drawn at most once for each, and while a frame is being drawn its draws and the units that still hold it are as many as the units |
| Orchestration.EveryRunKeepsInv | sw/src/orchestrator.rs:108-228 | every run that begins with a reset keeps both, under any inputs |
| Orchestration.StepKeepsOrder | sw/src/orchestrator.rs:180-227 | with one unit the pixels of a frame are drawn in ascending order, each once |
| Orchestration.FrameShowsCasts | sw/src/orchestrator.rs:180-211 | with one unit and the camera in a voxel of Air inside the grid, a completed frame shows in each of 128 rows and 160 columns what the reference cast (`mock_cast` in sw/src/vtu.rs) finds in the direction of that row and column, in the orchestrator's own colours and light, for the camera latched at the start of the frame |
| Orchestration.RightColourIsCast | sw/src/orchestrator.rs:185-211 | with the camera in a voxel of Air inside the grid the right colour of a pixel is that of the reference's outcome |
| Orchestration.StepMakesProgress | sw/src/orchestrator.rs:108-228 | with one unit every cycle hands out a pixel or uses up one of the 226 cycles that the current one has |
| Orchestration.FrameTime | sw/src/main.rs:74-80 | a pixel takes at most 226 cycles and a frame 20481 times as many |
| Orchestration.BudgetShrinks | sw/src/main.rs:74-80 | the time left for a frame decreases with every cycle after which pixels remain to be handed out, and the cycle after which none do is that of the last one |
| Machine.Orchestrator.RisingClkEdge | sw/src/orchestrator.rs:108-228 | the object with its caches and units does what the step function says |
| Machine.PowerUp | sw/src/main.rs:45-49 | a new machine, reset for one cycle, satisfies the invariant of running machines |
| Machine.RenderFrame | sw/src/main.rs:74-80 | both render loops end, the first within (pixels + 1) times 226 cycles, all pixels of the frame have the right colour for one view, which is that of the frame that was under way or, if none was, the camera at the inputs, and the next frame has been started with the camera at the inputs |
| Bits.BitsOf | server/feather/feather/protocol/src/io.rs:223-225 | the bits of exclusive or and of or, one by one |
| VarInts.EncodedDigits | server/feather/feather/protocol/src/io.rs:198-216 | each byte has the next seven bits, least significant first, and says whether another follows |
| VarInts.WriteTo | server/feather/feather/protocol/src/io.rs:198-216 | appends the encoding and counts its bytes |
| VarInts.ReadFrom | server/feather/feather/protocol/src/io.rs:217-240 | the loop that ors in each byte's bits reads what the decoder function gives |
| VarInts.OrAddsGroup | server/feather/feather/protocol/src/io.rs:223-225 | what has been read and the next byte's bits share none, so that or-ing them in adds them |
| VarInts.RoundTrip | server/feather/feather/protocol/src/io.rs:197-240 | every value of both kinds is read back, whatever follows, and exactly its bytes are consumed |
| VarInts.SignedRoundTrip | server/feather/feather/protocol/src/io.rs:253-313 | the same for signed values |
| VarInts.EncodedSizes | server/feather/feather/protocol/src/io.rs:294-313 | 1 to 5 bytes for numbers of 32 bits and 1 to 10 for 64, the limits of the reader |
| VarInts.PrefixIsIncomplete | server/feather/feather/protocol/src/io.rs:217-240 | every proper prefix of an encoding is reported as incomplete |
| VarInts.PrefixFree | server/feather/feather/protocol/src/io.rs:198-216 | no encoding is a prefix of another |
| VarInts.ReaderIsBounded | server/feather/feather/protocol/src/io.rs:217-240 | on any bytes the reader takes no more than its limit, and says too long only after that many continuation bytes |
| VarInts.DecodedFits | server/feather/feather/protocol/src/io.rs:253-280 | what is read fits the width, even where the last byte has bits beyond it |
| Cfb8.XorIsBitwise | server/feather/feather/protocol/src/codec.rs:79-81 | bytes are combined bit by bit |
| Cfb8.EncryptIsCfb8 | server/feather/feather/protocol/src/codec.rs:43-47 | each byte is combined with the mask for the register's length of initial register and cipher text before it, as section 6.3 of NIST SP 800-38A has it |
| Cfb8.RegisterIsEndOfStream | server/feather/feather/protocol/src/codec.rs:79-81 | after any bytes the register is the end of initial register and cipher text |
| Cfb8.DecryptInverts | server/feather/feather/protocol/src/codec.rs:79-81 | deciphering inverts enciphering and both end in the same register |
| Cfb8.EncryptPieces | server/feather/feather/protocol/src/codec.rs:79-81 | enciphering in pieces is enciphering the whole |
| Cfb8.DecryptPieces | server/feather/feather/protocol/src/codec.rs:139-148 | deciphering in pieces is deciphering the whole |
| CodecModel.UnpackInvertsIff | server/feather/feather/protocol/src/codec.rs:88-126 | a frame gives back its body if and only if the threshold is not 0 or the body is not empty |
| CodecModel.FramesDifferIff | server/feather/feather/protocol/src/codec.rs:88-136 | two bodies have the same frame if and only if they are the same |
| CodecModel.FrameAfterIff | server/feather/feather/protocol/src/codec.rs:116-122 | after a failed read the frame of a packet is the right one if and only if that has left nothing in the compression buffer, or the body is not compressed |
| CodecModel.FrameAfterFailureIff | server/feather/feather/protocol/src/codec.rs:70-86 | after a failed write the frame of a packet is the right one if and only if that has left nothing in the staging buffer |
| CodecModel.PollWholeFrame | server/feather/feather/protocol/src/codec.rs:151-190 | a whole frame yields its packet and is consumed exactly |
| CodecModel.NegativeLengthWaits | server/feather/feather/protocol/src/codec.rs:156-159 | a frame with a negative length is waited for |
| CodecModel.PollPartOfFrame | server/feather/feather/protocol/src/codec.rs:151-190 | a part of a frame yields nothing and consumes nothing |
| PacketStream.SendAllIsStream | server/feather/feather/server/src/connection_worker.rs:235-240 | packets encoded one by one into an empty buffer are one enciphered stream of frames |
| PacketStream.OldOutputIsEncipheredAgain | server/feather/feather/protocol/src/codec.rs:79-81 | what the output buffer held before is enciphered with the frame |
| PacketStream.OldOutputStaysIff | server/feather/feather/protocol/src/codec.rs:79-81 | under every cipher the output still begins with what it held before if and only if it held nothing |
| PacketStream.OldOutputIsMisread | server/feather/feather/protocol/src/codec.rs:79-81 | a cipher and two packets, the second written into an output that still holds the first, of which the reader makes a packet that is neither |
| PacketStream.EveryPlayMakesProgress | server/feather/feather/protocol/src/codec.rs:139-190 | under every cut of a part of the stream into arrivals, with questions in between, the packets delivered are a prefix of those sent and the rest is in the buffer |
| PacketStream.StreamRoundTrip | server/feather/feather/protocol/src/codec.rs:70-190 | any packets, any threshold and cipher state, any cuts and any moments of asking: drained, the reader has delivered exactly these packets in order and is empty |
| PacketStream.NothingHeldBack | server/feather/feather/protocol/src/codec.rs:151-190 | if the reader has nothing to deliver then the next frame has not arrived completely |
| Codec.MinecraftCodec.EncodePacket | server/feather/feather/protocol/src/codec.rs:70-137 | the object's buffers and cipher end as the writer function says, with what a failed read has left in the compression buffer in front of compressed data and what a failed write has left in the staging buffer in front of the packet; a packet that cannot be written stays in the staging buffer as far as it was written, and nothing else changes |
| Codec.MinecraftCodec.AcceptBytes | server/feather/feather/protocol/src/codec.rs:139-148 | likewise for received bytes |
| Codec.MinecraftCodec.NextPacket | server/feather/feather/protocol/src/codec.rs:151-190 | likewise for the next packet |
| Codec.MinecraftCodec.CloneWithSettings | server/feather/feather/protocol/src/codec.rs:56-67 | a codec with the same settings, the cipher at its beginning and empty buffers |
| Codec.SendPackets | server/feather/feather/server/src/connection_worker.rs:228-240 | the loop over the buffer that is cleared after each packet sends the stream of the packets before the first one that cannot be written |
| Metadata.TypeNumbers | server/feather/feather/base/src/metadata.rs:63-85 | the numbers of the entries' types |
| Metadata.EntryBytes | server/feather/feather/protocol/src/io.rs:706-722 | the bytes of small integers, floating-point numbers and flags |
| Metadata.RotationBytes | server/feather/feather/protocol/src/io.rs:723-727 | the order of three numbers |
| Metadata.VillagerBytes | server/feather/feather/protocol/src/io.rs:755-759 | likewise for the data of a villager |
| Metadata.PositionBits | server/feather/feather/protocol/src/io.rs:808-817 | 26 bits of x, 26 of z and 12 of y, from the most significant on |
| Metadata.NumbersAreRead | server/feather/feather/protocol/src/io.rs:649-681 | what is made of numbers that others have written: directions below 4 only, block ids, optional numbers |
| Metadata.StringRoundTripIff | server/feather/feather/protocol/src/io.rs:315-357 | a string is read back if and only if it has at most 32767 bytes |
| Metadata.PositionRoundTripIff | server/feather/feather/protocol/src/io.rs:793-817 | a valid position is read back if and only if it is not below 0 |
| Metadata.EntryRoundTripIff | server/feather/feather/protocol/src/io.rs:619-772 | an entry is read back, whatever follows, if and only if it is not one of the kinds named above |
| Metadata.MetadataRoundTripIff | server/feather/feather/protocol/src/io.rs:597-698 | a map of such entries is read back with the rest left unread if and only if it has no index 0xFF |
| Metadata.Write | server/feather/feather/protocol/src/io.rs:686-698 | the loop writes the entries in ascending order and the end |
| Metadata.Read | server/feather/feather/protocol/src/io.rs:597-617 | the loop reads what the reader function gives |
| Slots.TryTake | server/feather/libcraft/items/src/inventory_slot.rs:70-91 | takes what is there up to the amount; no unwrap fails, nothing is lost |
| Slots.TakeHalf | server/feather/libcraft/items/src/inventory_slot.rs:59-62 | takes the larger half |
| Slots.TransferTo | server/feather/libcraft/items/src/inventory_slot.rs:121-140 | moves what there is room for, up to the number asked; no unwrap fails |
| Slots.Merge | server/feather/libcraft/items/src/inventory_slot.rs:156-174 | moves as much as possible and tells how much |
| Slots.MergeIsMaximal | server/feather/libcraft/items/src/inventory_slot.rs:156-174 | something is left of a merge only if the slot is full; counts are kept |
| Slots.SetCount | server/feather/libcraft/items/src/item_stack.rs:191-204 | succeeds exactly for counts from 1 to the stack size |
| Layout.Offsets | server/feather/libcraft/generators/python/inventory.py:25-33 | the counter loop gives every row the sum of the sizes before it |
| Layout.IndexRoundTrip | server/feather/libcraft/generators/python/inventory.py:52-71 | a number has a place if and only if it is below the total, and the place leads back to it |
| Layout.SlotRoundTrip | server/feather/libcraft/generators/python/inventory.py:73-86 | a place has a number if and only if the window has its area, and leads back if and only if the slot is in range |
| Layout.PlayerLayout | server/feather/libcraft/inventory/src/inventory.rs:142-183 | the offsets of the player's window are those of its table |
| Layout.PlayerRoundTrips | server/feather/libcraft/inventory/src/inventory.rs:142-183 | in the player's window exactly the numbers below 46 have places and lead back to themselves, and places in its areas lead back exactly if the slot is in range |
| WindowLaws.AreaOfIsLayout | server/feather/libcraft/inventory/src/inventory.rs:142-183 | the areas of the player's slots are those that the table gives |
| WindowLaws.LeftClickFillsOrSwaps | server/feather/feather/common/src/window.rs:39-55 | a left click fills up a stack of the same kind, and swaps anything else |
| WindowLaws.RightClickDropsOneOrTakesHalf | server/feather/feather/common/src/window.rs:58-85 | a right click drops one where there is room, picks up the larger half, or swaps |
| WindowLaws.EverySequenceKeepsItems | server/feather/feather/common/src/window.rs:39-85 | over any sequence of clicks, shift-clicks and drags the number of items of every kind is kept and every stack stays between 1 and its limit |
| WindowLaws.ShiftClickIsMaximal | server/feather/feather/common/src/window.rs:198-253 | something is left in the clicked slot only if of the slots for its kind, given by their numbers, none is empty and those that can be merged with are full |
| WindowLaws.ExistingStacksFirst | server/feather/feather/common/src/window.rs:208-250 | an empty slot is used only for the rest, after all stacks that could be merged with are full |
| WindowLaws.ShiftClickInOrder | server/feather/feather/common/src/window.rs:198-253 | of two slots tried, both filled or both empty, the later one in the order of armour, hotbar, storage gets items only if the earlier one is full |
| WindowLaws.TargetsByNumber | server/feather/feather/common/src/window.rs:198-456 | the slots tried, by the numbers of slots and the kinds of items: hotbar 36 to 44 and storage 9 to 35 unless clicked there, and 5 to 8 for the armour that is worn there |
| WindowLaws.ShiftClickOnlyAdds | server/feather/feather/common/src/window.rs:198-253 | no slot but the clicked one loses anything, and slots that are not for the kind, by their numbers, do not change |
| WindowLaws.ErrorsChangeNothing | server/feather/feather/common/src/window.rs:39-93 | clicks fail exactly on numbers that are no slot's, and drags that have not begun; nothing is changed then |
| WindowLaws.PaintSlotsAreAdded | server/feather/feather/common/src/window.rs:482-488 | a drag takes any number, and reports it from the 1001st on |
| WindowLaws.LeftDragSplitsEvenly | server/feather/feather/common/src/window.rs:502-544 | with room each of n takers gains c / n and the cursor keeps c mod n; for fewer items than takers the first c gain one |
| WindowLaws.RightDragGivesOneEach | server/feather/feather/common/src/window.rs:532-548 | with room the takers gain one each, first come first served |
| WindowLaws.FinishesIff | server/feather/feather/common/src/window.rs:490-549 | at the end of a drag no unwrapping of a slot fails if and only if all its slots exist, or it is a left drag and the cursor is empty, or it is a right drag and the slots before the first missing one use the cursor up; then it ends as the action function says |
| Windows.Window.LeftClick | server/feather/feather/common/src/window.rs:39-55 | in place, as the action function says; an index out of range is an error and changes nothing |
| Windows.Window.RightClick | server/feather/feather/common/src/window.rs:58-85 | likewise |
| Windows.Window.ShiftClick | server/feather/feather/common/src/window.rs:198-253 | likewise, with both nested loops and their early ends |
| Windows.Window.AddPaintSlot | server/feather/feather/common/src/window.rs:330-336 | likewise, for any slot number; the 1001st is added and reported |
| Windows.Window.EndPaint | server/feather/feather/common/src/window.rs:339-345 | likewise, whenever no unwrapping of a slot fails; the drag is over in any case |
| EventRuns.OnceForEachSystem | server/feather/feather/ecs/src/system.rs:128-155 | between two runs of a system every other system runs exactly once |
| EventRuns.FoundAtStart | server/feather/feather/ecs/src/event.rs:64-69 | before a run exactly that is removed which the same system recorded when it last ran; in the first tick nothing |
| EventRuns.SeenByAllIff | server/feather/feather/ecs/src/lib.rs:47 | for arbitrary systems, an event is seen by every other system exactly once if and only if no insertion clashes with it, which is one whose removal falls due in the meantime or one that leaves another value before the last of the others has run, and it is gone when its system runs again |
| EventLaws.EarlyEventsIff | server/feather/feather/ecs/src/system.rs:132-143 | an event from before the first tick is seen in every system's first run if and only if no system but the last inserts one of the kind on the entity in the first tick and leaves another value, and it is gone when the first system runs again |
| EventLaws.EarlyEventsCanBeMissed | server/feather/feather/ecs/src/system.rs:132-143 | two systems and an event from before the first tick that the second one does not see |
| EventRuns.DeferredDespawn | server/feather/feather/ecs/src/lib.rs:143-147 | an entity to be despawned is there for all other systems once more and then gone |
| EventLaws.PerformKeepsComponent | server/feather/feather/ecs/src/lib.rs:101-147 | after any operations that do not meddle with it a component is what the last event insertion has left |
| EventLaws.EntityEventSeenByAllIff | server/feather/feather/ecs/src/lib.rs:121-129 | the same in terms of what the systems do |
| EventLaws.StandaloneEventSeenByAll | server/feather/feather/ecs/src/lib.rs:112-115 | a standalone event that is left alone is seen by every other system exactly once, without a condition on other insertions, and its entity is gone afterwards |
| EventLaws.EventsCanBeMissed | server/feather/feather/ecs/src/lib.rs:41-47 | two systems and four runs in which an event is missed |
| EventLaws.WhatComesBefore | server/feather/feather/ecs/src/event.rs:71-76 | whatever happens before the first tick is recorded in the first system's list |
| EcsObjects.EventTracker.RemoveOldEvents | server/feather/feather/ecs/src/event.rs:64-69 | the list of the current system is drained into the world, in order |
| EcsObjects.EventTracker.GrowToCurrent | server/feather/feather/ecs/src/event.rs:71-76 | lists are made up to the current system |
| EcsObjects.Ecs.InsertEntityEvent | server/feather/feather/ecs/src/lib.rs:121-129 | fails for entities that are gone, and then records nothing |
| EcsObjects.Ecs.InsertEvent | server/feather/feather/ecs/src/lib.rs:112-115 | an event is an entity of its own |
| EcsObjects.SystemExecutor.Run | server/feather/feather/ecs/src/system.rs:128-155 | one tick, with the exception of the first one |
| EcsObjects.TicksAreRuns | server/feather/feather/ecs/src/system.rs:128-155 | ticks of n systems are n runs each |
| Views.IterIsSquare | server/feather/feather/common/src/view.rs:100-142 | the chunks in view are those of a square, each once |
| Views.ContainsIffIter | server/feather/feather/common/src/view.rs:126-131 | the bounds test agrees with the iterator except at the centre of an empty view |
| Subscribers.UpdateIsLost | server/feather/feather/common/src/view.rs:18-54 | in whole runs of the systems: after the second system has inserted a view update for a joining player, the one that the first system inserts in the next tick clashes with it and no later system finds any |
| Subscribers.AgreesIff | server/feather/feather/server/src/chunk_subscriptions.rs:32-60 | after any number of ticks of one player the client is in the list of a chunk once if it is in view and never otherwise, if and only if the player did not change chunks between its first two ticks, or sees nothing, and the client was in no list when it was spawned |
| Subscribers.NoneLeftBehindIff | server/feather/feather/server/src/chunk_subscriptions.rs:49-57 | after it has left, the client is in no list, under the same condition or if it left before its first update |
| Subscribers.ResidueIff | server/feather/feather/server/src/client.rs:51 | of all holders of a client's number, one after the other, nothing is left in any list if and only if none of them has left anything: no later one makes up for it |
| Subscribers.ReusedNumberIsWrong | server/feather/feather/server/src/client.rs:51 | a player that changes chunks too early and leaves, and the next one with its number, which never moves and is subscribed to chunks that it does not see |
| Players.TouchedAreDistinct | server/feather/feather/server/src/chunk_subscriptions.rs:32-60 | in every tick the players that are leaving or have a view update have different clients, although a new player can have the number of one that is leaving |
| Players.RemainingAreKnown | server/feather/feather/server/src/systems/player_leave.rs:64 | when connections are looked at, the client of every player is found, so that the unwrap does not fail |
| Players.StepKeepsInv | server/feather/feather/server/src/chunk_subscriptions.rs:32-60 | a tick, with players joining, moving and leaving in any way, keeps: different clients, clients in use exactly those of the players that are not leaving, and for every number how often it is in each list, as the player's own ticks make of what earlier holders have left |
| Players.EveryRunKeepsInv | server/feather/feather/server/src/chunk_subscriptions.rs:32-60 | so does every run from the start of the server |
| Players.SubscribedIff | server/feather/feather/server/src/chunk_subscriptions.rs:32-60 | after every run of the server, from the tick after the one in which a player was spawned, its client is in the list of a chunk once if it is in view and never otherwise, if and only if neither the player nor any earlier holder of its client's number changed chunks between its first two ticks while it saw anything |
| Players.VacantIff | server/feather/feather/server/src/chunk_subscriptions.rs:49-57 | and a number that no player has is in no list if and only if none of its holders did |
| Subscriptions.VecRemoveItem | server/feather/feather/utils/src/lib.rs:4-9 | removes one occurrence, if there is one |
| Subscriptions.ChunkSubscriptions.RemoveSubscription | server/feather/feather/server/src/chunk_subscriptions.rs:62-70 | one client leaves one list by one, no list is left empty |
| Subscriptions.ChunkSubscriptions.UpdateView | server/feather/feather/server/src/chunk_subscriptions.rs:34-46 | the counts of exactly the chunks of the two differences change, whatever order they come in |
| Subscriptions.ChunkSubscriptions.UpdateChunkSubscriptions | server/feather/feather/server/src/chunk_subscriptions.rs:32-60 | the counts after all updates and all leavings; no list is empty |
| Subscriptions.OwnPlayerOnly | server/feather/feather/server/src/chunk_subscriptions.rs:32-60 | what happens to a client's subscriptions depends on its own player only, unless another one with the same client is leaving or has a view update |
| ServerObject.Server.UpdatePlayerViews | server/feather/feather/common/src/view.rs:18-39 | two loops: players that have changed chunks get a new view, then the events |
| ServerObject.Server.UpdateViewOnJoin | server/feather/feather/common/src/view.rs:42-54 | joining players get an update from nothing, in place of any other |
| ServerObject.Server.PollNewPlayers | server/feather/feather/server/src/systems/player_join.rs:29-34 | each connection gets a player, as an entity and with a number that are not in use |
| ServerObject.Server.UpdateChunkSubscriptions | server/feather/feather/server/src/chunk_subscriptions.rs:32-60 | for all players together, in any order, each client's counts change as its own player asks |
| ServerObject.Server.RemoveDisconnectedClients | server/feather/feather/server/src/systems/player_leave.rs:22-99 | the players whose connections are gone are marked, their numbers are free, and no client is looked for in vain |
| ServerObject.Server.Tick | server/feather/feather/server/src/systems.rs:23-43 | all systems in order, each after its old events are removed, make the tick of the model and keep its invariant |
| PlayerSystems.BeginKeepsTracked | server/feather/feather/ecs/src/event.rs:64-69 | what the executor removes before a system's run is, for a player's record, what the flags of the two systems' lists say; all its events stay in their own lists |
| PlayerSystems.MovesRun | server/feather/feather/common/src/view.rs:18-39 | on entities and components: the loop that sets views and the one that inserts the events change exactly the records of the players that have changed chunks |
| PlayerSystems.JoinsRun | server/feather/feather/common/src/view.rs:42-54 | likewise for joining players |
| PlayerSystems.LeaveRun | server/feather/feather/server/src/systems/player_leave.rs:22-99 | likewise for players whose clients are gone |
| PlayerRuns.QuietRun | server/feather/feather/ecs/src/system.rs:128-155 | whatever other systems do, as long as they leave players' records alone and make no players |
| PlayerRuns.PollRun | server/feather/feather/server/src/systems/player_join.rs:29-141 | each arrival becomes an entity with a record that is new, and the others are left alone |
| EcsPlayers.RunsBehave | server/feather/feather/ecs/src/system.rs:128-155 | the runs of the executor's systems, n of them, are courses of the simulation |
| EcsPlayers.AlwaysInOrder | server/feather/feather/ecs/src/event.rs:46-69 | over every run, a player's events are in the lists of the systems that insert them and in no others |
| EcsPlayers.MidIsServers | server/feather/feather/server/src/systems.rs:23-43 | the simulation: when the subscription system runs, what the components and the tracker's lists say of all players is what the server's tick has made of their records |
| EcsPlayers.TickIsServers | server/feather/feather/server/src/systems.rs:23-43 | and so at the end of the tick |
| EcsPlayers.ServerHasItsPlayers | server/feather/feather/server/src/systems.rs:23-43 | so that after every tick the server's players are those of the entity-component system |
| EcsPlayers.SubscribedIff | server/feather/feather/server/src/chunk_subscriptions.rs:32-60 | the main result for runs of the entity-component system with any number of systems: the lists of a player's client are those of the view in its components, if and only if neither it nor any earlier holder of its client's number changed chunks between its first two ticks while it saw anything |
| Noise.IndexIsExact | server/feather/feather/worldgen/src/noise.rs:204-210 | every place of the buffer belongs to exactly one block |
| Noise.IndexOfBits | server/feather/feather/worldgen/src/noise.rs:209 | the shifts and ors are a sum |
| Noise.CornersExist | server/feather/feather/worldgen/src/noise.rs:192-201 | no density index is out of bounds |
| Noise.CornersDiffer | server/feather/feather/worldgen/src/noise.rs:192-201 | no two corners of the grid share a density |
| Noise.DensitiesAreInRows | server/feather/feather/worldgen/src/noise.rs:192-201 | the densities are in order of X, Y and Z: the number of a corner's density |
| Noise.AlongIsMean | server/feather/feather/worldgen/src/noise.rs:160-181 | adding up steps gives the weighted mean of both ends |
| Noise.BetweenIsTrilinear | server/feather/feather/worldgen/src/noise.rs:128-181 | the value at a block is the trilinear mean of the eight corners |
| Noise.CellIsQuotient | server/feather/feather/worldgen/src/noise.rs:123-168 | the cell in which a block lies, and where in it, are quotient and remainder by the size of the cells |
| Noise.InterpolatedIsMean | server/feather/feather/worldgen/src/noise.rs:123-187 | so the density of a block in closed form: the trilinear mean over the cell given by the quotients, weighted by the remainders over the cell's sizes |
| Noise.MeanAtCorner | server/feather/feather/worldgen/src/noise.rs:128-181 | where a cell begins a block has the density given for the corner |
| Noise.DefaultCorners | server/feather/feather/worldgen/src/noise.rs:29-39 | with the default sizes, in a filled buffer: the block at (4i, 8j, 4k), at its place, has density number i + 5j + 165k |
| Noise.CellsMeet | server/feather/feather/worldgen/src/noise.rs:128-181 | cells agree where they meet and have the given densities at their corners |
| Noise.Fill | server/feather/feather/worldgen/src/noise.rs:92-190 | whatever the buffer held, every block is set to the closed form, the trilinear mean of the eight densities around it, every place of the buffer is written exactly once, and densities are read at corners of the grid only |
| Noise.Generate | server/feather/feather/worldgen/src/noise.rs:92-190 | the same for a new buffer |
| Noise.DefaultSizes | server/feather/feather/worldgen/src/noise.rs:29-39 | the default sizes are valid |
| Composition.ComposeColumn | server/feather/feather/worldgen/src/composition.rs:56-118 | the scan from top to bottom gives every height the block that the depth function gives, and leaves air unset |
| Composition.LandColumn | server/feather/feather/worldgen/src/composition.rs:26-28 | above the bedrock of land: air, or top soil, or soil for three blocks, or stone, by how many blocks above are dense |
| Composition.OceanColumn | server/feather/feather/worldgen/src/composition.rs:77-90 | in an ocean the depth counts all ground above, so that there is soil on the uppermost ground only |
| Composition.LandParts | server/feather/feather/worldgen/src/composition.rs:92-111 | on land: bedrock up to the random height, and above it ground where it is dense and air elsewhere |
| Composition.OceanParts | server/feather/feather/worldgen/src/composition.rs:78-95 | in oceans: nothing above height 64, below it water where it is not dense, with levels 0, 8, 9 up to 15 by how many heights above have water, and otherwise bedrock up to the random height and ground |
| PlayerCount.StepKeepsInv | server/feather/feather/server/src/player_count.rs:27-48 | every step of any thread keeps the count equal to the players that are there |
| PlayerCount.ExactIff | server/feather/feather/server/src/player_count.rs:27-48 | under every interleaving the count is admitted minus removed players and at most the maximum, if and only if the maximum is below the largest number |
| PlayerCount.RunIsCongruent | server/feather/feather/server/src/player_count.rs:27-48 | under every interleaving and for every maximum the count is right up to a multiple of 2^32 |
| PlayerCount.RejectedOnlyWhenFull | server/feather/feather/server/src/player_count.rs:28-34 | a player is turned away if and only if the server was full when the count was loaded |
| PlayerCount.FailedExchange | server/feather/feather/server/src/player_count.rs:36-43 | an exchange fails only if another thread has changed the count since it was loaded |

## Left out

- Lookup tables for inverse square roots and reciprocals and the accuracy of fixed-point arithmetic: the tables are parameters.
- Fixed-point overflow: the arithmetic is that of the hardware description, which wraps at 20 bits; the software panics or wraps at its own width.
- Coverage of a frame by more than one unit: no pixel but the first is drawn twice, but rays in flight at the end of a frame are lost, so that some pixels can be missing.
- Fairness of the L2 cache for ports other than the first: a later port can wait forever.
- Traversal.WalkIsSortedMerge: needs that crossing times do not overflow and do not decrease, which the lookup tables decide.
- The window on the screen, input handling and the benchmark counters.
- zlib, AES and packet formats: functions with inverses; that a decompressor reports errors and where it stops is not modelled.
- PacketStream.StreamRoundTrip: for frames below 2^31 bytes, the largest length that the format has, and no empty body at threshold 0, where it fails.
- Settings of a codec that change in the middle of a stream; sockets and tasks around it.
- Metadata.EntryRoundTripIff: not for entries with slots, named binary tags or particles, since the formats of the first two are not part of this model, and the last one is not implemented for writing.
- Length-prefixed vectors and the other readers and writers of the protocol: they would add members like the string's.
- Shift-clicks in windows other than the player's: the original has no code for them.
- Two windows over one inventory, and the locks of its slots: a window's slots are one array.
- Windows.Window.EndPaint: asks that no unwrapping of a painted slot fails, for which `WindowLaws.FinishesIff` gives the exact condition; what is left of a window after a panic is not modelled.
- Items' titles and damage: merging does not look at them, and only counts per kind are conserved.
- Functions that meddle with an event's component by hand: the theorems on events exclude them.
- EventLaws.StandaloneEventSeenByAll: systems name only entities that have been spawned; handles made up from numbers are not modelled.
- Change tracking of components, and the components that a query asks for: a query finds the players, in any order, and results do not depend on the order.
- Systems that stop early with an error: a system is a list of operations, which may be shorter.
- View distances that change after a player has joined, and chunk coordinates near the limits of 32 bits.
- EcsPlayers.SubscribedIff: players are moved by their packets only and no other system touches what their records are made of, as it is in the original without plugins; positions are known by their chunks only; numbers of clients come from a slab, any number that is not in use.
- Which of two entities with the same number gets a packet: packets may move any player anywhere.
- The instant reference renderer `mock_render`: its picture is another one, only the cast that it uses is modelled.
- Noise.Generate: sizes of 16 blocks along X and Z only, since the index has them built in; reals instead of floating-point numbers.
- The random generator of a column: its numbers below 4 are a parameter, one for each height.
- PlayerCount.ExactIff: each removal is of a player that was admitted and not removed yet, as the connection worker has it.
- Chunk palettes, workers, region files, chunk locks, plugins, login and authentication.
