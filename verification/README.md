# Verified model of emulate.computer

emulate.computer runs a 64-bit RISC-V machine in a browser tab or a terminal,
with a network that reaches the outside through a WebSocket relay. This project
models the parts of it where a mistake would be hardest to see, and proves what
they are meant to keep. `dafny verify dfyconfig.toml` checks everything.

## What is modelled

**The hart and its caches** (`Sv39`, `Ram`, `Mmu`, `DecodeCache`, `Csr`, `Core`,
`Hart`, `Cpu`, with laws in `CacheLaws`, `Privilege`, `HartRuns`, `Stores`, and
`InterruptExample`). `Hart` is a hart without caches: it walks the page table,
reads and decodes on every instruction. `Cpu` is the hart as built, with the
direct-mapped Sv39 TLB, the one-entry fetch memo and the decoded-block cache
validated by page generations. `Cpu.Run` proves that over whole runs the two are in
the same state: registers, pc, mode, CSRs, memory and devices. Instruction decoding,
the register units and the devices are arbitrary functions.

The theorem has two hypotheses:

- *Fencing.* A page that was translated and whose walk a later data write (store,
  DMA) changed is not used again before a flush (`disciplined`). Updates of A and
  D bits by the walker itself are not data writes and need no fence.
- *No interrupt strays.* Taking an interrupt leaves the block cache's active slot
  alone, and the slot is compared by pc only. An interrupt strays when its vector is
  the interrupted pc, the pc means something else in the new mode, and the active
  block goes on there. The next fetch comes from the reference hart's address if and
  only if the interrupt does not stray (`FetchAfterInterrupt`). For whole runs the
  hypothesis is sufficient and not claimed to be necessary: after a stray fetch the
  two harts may meet again. It holds in every run of the reference hart in which no
  interrupt vectors to its own pc (`NeverSelfVectors`). `MisplacedInterrupt` is a run
  that does stray: a new hart, three steps of a two-instruction loop in user mode,
  and an external interrupt.

**The relay protocol** (`MuxProtocol`, `MuxCodec`; for the relay `RelayChannel`,
`RelayLaws`, `RelayEnds`, `RelayBuffers`, `RelayProcess`, `RelayConn`,
`CreditProtocol`; for the browser `PortProtocol`, `PortLaws`, `NetworkPort`,
`BrokerModel`, `BrokerClients`, `BrokerPorts`, `BrokerOrder`, `Broker`, `Network`; for
the terminal `NativeModel`, `NativeRuns`, `NativeTransport`; `CreditExamples`). A guest
port, the browser's broker, and the relay with its TCP flow exchange messages over ordered
queues; the native transport is a second client. Each wire is an append-only log of
which the reader has consumed a prefix. `CreditProtocol` runs one channel of one
connection with everything other channels can do to it as events;
`PortProtocol` runs one port with all its flows against the broker's table.
`Network` runs everything together, any number of ports with any number of flows
over one broker and its connection, and proves that each port is then in a run of
`PortProtocol` and each channel in a run of `CreditProtocol`; so the laws of both
hold end to end (`ThreeTiers`). `NativeRuns` does the same for the native
transport, and `RelayProcess` runs any number of connections over one relay.
Answers from outside (socket room, quota verdicts, TCP write counts) are arguments.

The protocol's hypotheses are few. Commands are well formed, and a command with its
channel id fits the 4096 characters of a control line. A guest sends its command
after the opened event, and data and FIN after the command (`OrderlyGuest`). Nothing
is asked of TCP, the quota service, the sockets or the other users of a relay.

Four things the code does not guarantee come out exactly:

- Upload bytes that reach the relay before the flow is admitted are dropped and
  never acknowledged. TCP gets the client's bytes in order and without gaps, but
  starting after those. It gets them from the first byte on if and only if no data
  frame is read before admission (`UploadsFromTheStart`), and a client that sends
  no data before the relay's first reply never loses any
  (`WaitingClientLosesNothing`). `EarlyByteIsSkipped` is a run that does.
- EOF does not always follow all of a download. A flow that got FIN and stays quiet
  is swept with EOF, and what still waits for its quota verdict is dropped. A client
  that read EOF read every byte that came from TCP if and only if that did not happen
  with a download waiting (`EofMeansEverything`, and through the broker
  `StreamsThroughTheBroker`); it never happens to a client that sends no FIN
  (`WithoutFinEofIsWhole`). `QuietFlowLosesADownload` is a run in which it does.
- If acknowledging a partial TCP write finds the socket full, the connection stops
  and the flow ends, and then the rest of the write is still charged to it. In a
  run of the process ended flows hold nothing if and only if that never happened
  (`TotalsAreSums`); `StoppedWriteStrandsBytes` is a run in which it does.
- The relay stops a connection on which a command's id is not above the last one's.
  The broker never causes that (`NoChannelIsReused`). The native transport does if
  and only if a channel sends its command after one with a higher id
  (`CommandsRise`).

**Bytes on disk and in snapshots** (`Seeder`, `Sha256`, `Snapshot`, `SnapshotRam`,
`DiskOverlay`, `SnapshotMachine`, `SnapshotCore`, `SnapshotRuns`, `SnapshotIo`):
seeding a disk from a stream cut anywhere, streaming SHA-256 over any compression
function, and the snapshot container with RAM pages, disk overlay and the 4096 CSR
slots. A hart's registers come back from their sections if and only if they fit them
(`LayoutTrip`), and whatever a hart ran since reset, they do (`EveryRunComesBack`).

**Two stand-alone pieces.** `Overflow` proves the overflow decision for
floating-point sums exact, although the gap it compares with is itself rounded.
`Session` and `SessionController` are the session controller, in every interleaving
of requests with what they await. "Disposed" is final unless disposing of the disk
is rejected, which turns it into "failed" (`DisposedIsFinal`,
`RejectedDisposalFails`).

## Model

| member | source | states |
|---|---|---|
| `Sv39.MarkedKeepsOtherBits` | crates/emulate-core/src/mmu.rs:195-198 | Setting A, and D for a store, changes no other field of a PTE, and changes nothing if they were set |
| `Sv39.LeafIsLeaf` | crates/emulate-core/src/mmu.rs:162-239 | A walk ends at an aligned, well-formed leaf, or faults |
| `Sv39.AdChangesAreInvisible` | crates/emulate-core/src/mmu.rs:162-238 | Any number of A/D changes leave every walk from every table unchanged, even in self-referencing tables |
| `Sv39.TranslateIsAdOnly` | crates/emulate-core/src/mmu.rs:194-211 | A translation writes nothing but A and D bits of a leaf |
| `Sv39.TranslateKeepsResolutions` | crates/emulate-core/src/mmu.rs:162-238 | After any translation every page resolves as before, to an entry unchanged or marked by that access |
| `Sv39.AdChangesKeepResult` | crates/emulate-core/src/mmu.rs:183-227 | With ADUE on, A/D changes leave the outcome of every translation as it was |
| `Sv39.TranslationsDoNotInterfere` | crates/emulate-core/src/mmu.rs:162-238 | With ADUE on, no translation changes the address or fault of another, whatever modes, accesses and tables |
| `Sv39.InterferenceWithoutAdue` | crates/emulate-core/src/mmu.rs:194-211 | With ADUE off, the only effect is that a fault for want of A or D becomes the success it would be, through the same entry |
| `Sv39.RepeatIsSilent` | crates/emulate-core/src/mmu.rs:162-238 | A successful translation repeated gives the same address and writes nothing, even with ADUE off |
| `TlbMmu.HitAgrees` | crates/emulate-core/src/mmu.rs:112-137 | A hit on a truthful entry answers exactly as the walk, faults included, except for a store with D clear |
| `TlbMmu.TranslateKeepsCoherence` | crates/emulate-core/src/mmu.rs:194-211 | Walks of any page leave the whole TLB truthful, also when a superpage sibling sets D in a shared PTE |
| `TlbMmu.FillIsTruthful` | crates/emulate-core/src/mmu.rs:213-227 | What a successful walk puts in the TLB is truthful in the memory it leaves |
| `TlbMmu.Mmu.constructor` | crates/emulate-core/src/mmu.rs:65-74 | A new TLB holds no entry |
| `TlbMmu.Mmu.FlushAll` | crates/emulate-core/src/mmu.rs:83-88 | A flush invalidates every entry and counts up |
| `TlbMmu.Mmu.Translate` | crates/emulate-core/src/mmu.rs:101-137 | Through a coherent TLB, result and memory are those of a fresh walk for every mode, SUM, MXR, ADUE and access, and the TLB stays coherent |
| `TlbMmu.Mmu.Walk` | crates/emulate-core/src/mmu.rs:145-239 | The level loop computes the reference walk and keeps the TLB coherent |
| `TlbMmu.Mmu.UseLeaf` | crates/emulate-core/src/mmu.rs:183-227 | At a permitted leaf: A/D update or fault, TLB fill, superpage address, as the reference walk |
| `TlbMmu.Mmu.MarkLeaf` | crates/emulate-core/src/mmu.rs:194-211 | A and D are set in the entry and nowhere else, or refused, exactly when ADUE is off and they were clear |
| `GuestRam.Ram.constructor` | crates/emulate-core/src/ram.rs:20-26 | New RAM is zero with all generations zero |
| `GuestRam.Ram.Read` | crates/emulate-core/src/ram.rs:41-50 | A read inside RAM is the little-endian value of its bytes, else refused |
| `GuestRam.Ram.WriteSlice` | crates/emulate-core/src/ram.rs:70-76 | A write is all or nothing, and bumps exactly the pages it touches, once |
| `GuestRam.Ram.BumpPageGenerations` | crates/emulate-core/src/ram.rs:110-124 | The loop bumps exactly the pages of the range |
| `BlockCache.WritesKeepCoherence` | crates/emulate-core/src/cpu/decode_cache.rs:1-25 | No tracked RAM change can make the block cache claim an instruction that RAM does not hold |
| `BlockCache.DecodeCache.constructor` | crates/emulate-core/src/cpu/decode_cache.rs:128-139 | A new cache is empty |
| `BlockCache.DecodeCache.Flush` | crates/emulate-core/src/cpu/decode_cache.rs:149-155 | A flush empties every block and the active slot |
| `BlockCache.DecodeCache.Invalidate` | crates/emulate-core/src/cpu/decode_cache.rs:157-160 | One block is invalidated, all others stay |
| `BlockCache.DecodeCache.LookupActive` | crates/emulate-core/src/cpu/decode_cache.rs:162-194 | A hit happens exactly when the slot continues at that pc with a current generation, and returns what RAM holds at the expected address; an append exactly when the block ends there |
| `BlockCache.DecodeCache.LookupPhysical` | crates/emulate-core/src/cpu/decode_cache.rs:199-221 | A hit returns the instruction RAM holds at the address now; a miss means no block of the set starts there; only blocks out of date are dropped |
| `BlockCache.DecodeCache.Insert` | crates/emulate-core/src/cpu/decode_cache.rs:225-271 | The whole new cache: the block being grown takes the instruction if it is of the same page, else one block begins in its own set and evicts only from a full set; coherence is kept |
| `BlockCache.DecodeCache.PickVictim` | crates/emulate-core/src/cpu/decode_cache.rs:251-259 | The way reused is in the set, and valid only if the whole set is |
| `BlockCache.DecodeCache.FinishInstruction` | crates/emulate-core/src/cpu/decode_cache.rs:274-313 | The slot is armed exactly after a fall-through within the page by an instruction that does not end a block |
| `Cores.StraightLineKeepsMapping` | crates/emulate-core/src/cpu/decode_cache.rs:330-345 | An instruction that lets a block continue changes neither mode nor satp and flushes nothing; satp never changes without a flush |
| `Cores.CsrKeepsMapping` | crates/emulate-core/src/cpu/execute.rs:281-332 | A CSR instruction keeps the mode, and changes satp only by writing satp, with a flush |
| `Privilege.TrapKeepsPrivilege` | crates/emulate-core/src/cpu/mod.rs:517-549 | A trap keeps MPP legal and MPRV clear below M-mode, and never lowers privilege |
| `Privilege.TrapThenMret` | crates/emulate-core/src/cpu/mod.rs:592-612 | A trap into M-mode and the MRET after it restore pc, mode and every status bit but MPIE and MPP |
| `Privilege.TrapThenSret` | crates/emulate-core/src/cpu/mod.rs:568-590 | Likewise for S-mode, with SRET permitted exactly when TSR is clear |
| `Privilege.ExecuteKeepsPrivilege` | crates/emulate-core/src/cpu/execute.rs:176-360 | Every instruction keeps the privilege invariant, and only MRET and SRET change the mode, downwards |
| `Privilege.CsrKeepsPrivilege` | crates/emulate-core/src/cpu/execute.rs:281-332 | CSR instructions keep the privilege invariant and the mode |
| `Privilege.WriteKeepsPrivilege` | crates/emulate-core/src/cpu/csr.rs:274-349 | No permitted CSR write makes MPP 2 or sets MPRV below M-mode |
| `Privilege.MstatusIsMachineOnly` | crates/emulate-core/src/cpu/csr.rs:372-410 | Below M-mode mstatus cannot be written |
| `Privilege.ChosenInterrupt` | crates/emulate-core/src/cpu/mod.rs:461-499 | An interrupt is chosen exactly when one can be taken, and it outranks the others of its level |
| `Privilege.InterruptGoesWhereClassified` | crates/emulate-core/src/cpu/mod.rs:510-515 | The chosen interrupt is delivered to the level it was classified for, never below the current one |
| `HartRuns.StepKeepsPrivilege` | crates/emulate-core/src/cpu/mod.rs:348-457 | A step keeps the privilege invariant and lowers privilege only by fetching MRET or SRET |
| `HartRuns.RunKeepsPrivilege` | crates/emulate-core/src/machine.rs:556-609 | Every run from a well-privileged state stays well privileged |
| `HartRuns.ResetIsWellPrivileged` | crates/emulate-core/src/cpu/csr.rs:151-169 | Reset is well privileged: MPP legal, UXL and SXL fixed, MPRV clear |
| `Stores.PageTranslatesTogether` | crates/emulate-core/src/mmu.rs:213-226 | Bytes of one page translate together, to consecutive addresses |
| `Stores.BytesTranslate` | crates/emulate-core/src/cpu/mod.rs:300-310 | Translating a crossing access byte by byte succeeds exactly when every byte does in the original tables |
| `Stores.TargetsAreDistinct` | crates/emulate-core/src/cpu/mod.rs:288-319 | The bytes of an access land at different addresses even when two pages share a frame |
| `Stores.BytesArePlaced` | crates/emulate-core/src/cpu/mod.rs:311-318 | Writing byte by byte to RAM puts exactly those bytes there and changes nothing else |
| `Stores.SplitStore` | crates/emulate-core/src/cpu/mod.rs:288-319 | A page-crossing store to RAM is all or nothing |
| `Stores.UnsplitStore` | crates/emulate-core/src/cpu/mod.rs:243-253 | A store within a page to RAM is all or nothing |
| `Stores.StoreIsAllOrNothing` | crates/emulate-core/src/cpu/mod.rs:243-319 | Any alignment: the store succeeds exactly when all bytes translate into RAM, a trap leaves only A/D bits changed, a success writes exactly the little-endian value |
| `CacheLaws.WalkKeepsMemo` | crates/emulate-core/src/cpu/mod.rs:152-172 | A walk of any page leaves the fetch memo in agreement |
| `CacheLaws.MemoHit` | crates/emulate-core/src/cpu/mod.rs:153-161 | A memo for this page, mode and flush count answers as the walk, which would change nothing |
| `CacheLaws.MemoFill` | crates/emulate-core/src/cpu/mod.rs:162-171 | What a fetch translation remembers agrees with the tables it leaves |
| `CacheLaws.DataWriteKeepsTlb` | crates/emulate-core/src/mmu.rs:52-56 | A data write leaves the TLB in agreement for every page it did not make stale |
| `CacheLaws.DataWriteKeepsMemo` | crates/emulate-core/src/cpu/mod.rs:16-28 | Likewise for the fetch memo |
| `CacheLaws.FlushAgrees` | crates/emulate-core/src/mmu.rs:83-88 | After a flush nothing cached is left to disagree |
| `CacheLaws.HeldIsFetched` | crates/emulate-core/src/cpu/mod.rs:177-217 | An instruction held in one RAM page is what a fetch reads there |
| `CacheLaws.CoveredTranslation` | crates/emulate-core/src/cpu/decode_cache.rs:274-313 | A covered slot's address is what translating the pc would give now |
| `CacheLaws.CoveredInstruction` | crates/emulate-core/src/cpu/mod.rs:372-382 | A covered, faithful entry is exactly what the cache-free hart would fetch |
| `CacheLaws.CoversNext` | crates/emulate-core/src/cpu/decode_cache.rs:287-312 | Falling through within the page stays covered while mode, satp and flush count stand |
| `CacheLaws.InterruptKeepsCover` | crates/emulate-core/src/cpu/mod.rs:510-515 | An interrupt that is not misplaced leaves the slot covered or unused |
| `CacheLaws.MisplacedSelfVectors` | crates/emulate-core/src/cpu/mod.rs:510-515 | Only an interrupt that vectors to its own pc in another mode under Sv39 can be misplaced |
| `CacheLaws.ContinuationAfterInterrupt` | crates/emulate-core/src/cpu/decode_cache.rs:162-181 | The slot's address is the one the new mode translates the pc to, or not used, if and only if the interrupt is not misplaced |
| `CacheLaws.SupervisorCannotFetch` | crates/emulate-core/src/mmu.rs:245-270 | A page U-mode executes from is one S-mode cannot |
| `CacheLaws.SupervisorVectorFaults` | crates/emulate-core/src/mmu.rs:245-270 | A misplaced interrupt into S-mode should have been a page fault |
| `InterruptExample.LoopSteps` | crates/emulate-core/src/cpu/mod.rs:348-457 | The cache-free hart goes round the loop of the example, fenced and without traps |
| `InterruptExample.RunLoop` | crates/emulate-core/src/cpu/mod.rs:348-457 | A hart built anew, three steps of a two-instruction loop and an interrupt line: it agrees with the cache-free hart after the same run, and its active slot is on the second instruction |
| `InterruptExample.MisplacedInterrupt` | crates/emulate-core/src/cpu/mod.rs:510-515 | After that run the cached hart takes the interrupt and fetches the loop's second instruction in S-mode, where the cache-free hart takes a page fault |
| `CachedCpu.Cpu.constructor` | crates/emulate-core/src/cpu/mod.rs:90-104 | A new hart has empty caches and agrees with the cache-free hart |
| `CachedCpu.Cpu.Translate` | crates/emulate-core/src/cpu/mod.rs:130-148 | Translation through the TLB agrees with the cache-free hart |
| `CachedCpu.Cpu.WriteRam` | crates/emulate-core/src/bus.rs:200-207 | A RAM write keeps agreement and the block cache coherent |
| `CachedCpu.Cpu.BusRead` | crates/emulate-core/src/bus.rs:146-153 | A bus read returns RAM's little-endian bytes, or the device's answer, as the cache-free hart |
| `CachedCpu.Cpu.BusWrite` | crates/emulate-core/src/bus.rs:200-207 | A bus write, with any DMA it causes, agrees with the cache-free hart |
| `CachedCpu.Cpu.TranslateBytes` | crates/emulate-core/src/cpu/mod.rs:263-310 | The byte loop agrees with the cache-free hart, and faults rather than wrap at the end of the address space |
| `CachedCpu.Cpu.ReadBytes` | crates/emulate-core/src/cpu/mod.rs:277-285 | The read loop assembles the same little-endian value |
| `CachedCpu.Cpu.WriteBytes` | crates/emulate-core/src/cpu/mod.rs:311-318 | The write loop leaves the same memory |
| `CachedCpu.Cpu.LoadValue` | crates/emulate-core/src/cpu/mod.rs:232-285 | Loads, crossing or not, agree with the cache-free hart |
| `CachedCpu.Cpu.StoreValue` | crates/emulate-core/src/cpu/mod.rs:243-319 | Stores, crossing or not, agree with the cache-free hart and drop the reservation |
| `CachedCpu.Cpu.TranslateAmo` | crates/emulate-core/src/cpu/mod.rs:323-345 | Alignment and access checks of atomics agree |
| `CachedCpu.Cpu.ExecuteLoad` | crates/emulate-core/src/cpu/execute.rs:211-227 | A load instruction agrees |
| `CachedCpu.Cpu.ExecuteLr` | crates/emulate-core/src/cpu/execute.rs:361-374 | LR agrees, with its reservation |
| `CachedCpu.Cpu.ExecuteSc` | crates/emulate-core/src/cpu/execute.rs:375-398 | SC agrees |
| `CachedCpu.Cpu.ExecuteAmo` | crates/emulate-core/src/cpu/execute.rs:399-423 | AMOs agree |
| `CachedCpu.Cpu.ExecuteMemory` | crates/emulate-core/src/cpu/execute.rs:211-242 | Every memory instruction agrees and changes only registers and the reservation |
| `CachedCpu.Cpu.TranslateFetch` | crates/emulate-core/src/cpu/mod.rs:152-172 | Fetch translation through the memo agrees, and leaves the memo on this page |
| `CachedCpu.Cpu.FetchWindow` | crates/emulate-core/src/cpu/mod.rs:177-217 | The two half-word reads agree, also across pages; a RAM page is reported exactly when it holds the whole instruction |
| `CachedCpu.Cpu.FetchUpper` | crates/emulate-core/src/cpu/mod.rs:192-216 | The upper half agrees, on this page or the next |
| `CachedCpu.Cpu.UpperNextPage` | crates/emulate-core/src/cpu/mod.rs:192-204 | An instruction over a page boundary is translated again and never cached |
| `CachedCpu.Cpu.UpperInPage` | crates/emulate-core/src/cpu/mod.rs:196-216 | An instruction within a page is cached exactly when it lies in RAM |
| `CachedCpu.Cpu.Decode` | crates/emulate-core/src/cpu/mod.rs:407-419 | Reading, decoding and inserting at a physical address agree with decoding anew, and the block cache changes by that insertion alone |
| `CachedCpu.Cpu.FetchPhysical` | crates/emulate-core/src/cpu/mod.rs:391-421 | Translate, look up by address, else decode: agrees with walk, read and decode |
| `CachedCpu.Cpu.FetchAt` | crates/emulate-core/src/cpu/mod.rs:392-421 | A block found by physical address, else a decoded instruction, agrees with read and decode |
| `CachedCpu.Cpu.FetchInstruction` | crates/emulate-core/src/cpu/mod.rs:368-423 | Fetching through all three caches agrees with walk, read and decode, whenever an active block that goes on is covered; the block cache goes on, grows, is used again or begins a block accordingly |
| `CachedCpu.Cpu.FlushTo` | crates/emulate-core/src/cpu/execute.rs:298-305 | A satp write with its flush agrees |
| `CachedCpu.Cpu.ExecuteRegister` | crates/emulate-core/src/cpu/execute.rs:243-360 | Register, CSR, fence and return instructions agree, with the flush they ask for |
| `CachedCpu.Cpu.ExecuteInstruction` | crates/emulate-core/src/cpu/execute.rs:176-424 | Any instruction agrees |
| `CachedCpu.Cpu.StepInner` | crates/emulate-core/src/cpu/mod.rs:368-457 | Fetch, execute, retire and re-arm the block cache agree with the cache-free step; for instructions that touch no memory the new cache is given exactly |
| `CachedCpu.Cpu.Step` | crates/emulate-core/src/cpu/mod.rs:348-366 | A step with its trap agrees; a waiting hart does nothing |
| `CachedCpu.Cpu.Receive` | crates/emulate-core/src/machine.rs:531-553 | Interrupt lines, DMA and device changes between steps agree |
| `CachedCpu.Cpu.Interrupted` | crates/emulate-core/src/cpu/mod.rs:510-515 | Taking an interrupt agrees, and leaves a block that goes on covered unless the interrupt strays |
| `CachedCpu.Cpu.FetchAfterInterrupt` | crates/emulate-core/src/cpu/decode_cache.rs:162-181 | The fetch after an interrupt comes from the cache-free hart's address if and only if the interrupt does not stray, and then agrees in full; after one that strays it is the active block's instruction, where in S-mode the cache-free hart takes a page fault |
| `CachedCpu.Cpu.Turn` | crates/emulate-core/src/machine.rs:574-582 | One turn of the machine loop agrees unless its interrupt strays; unless DMA came first, that is exactly when the block goes on and the interrupt is misplaced for it |
| `CachedCpu.Cpu.Run` | crates/emulate-core/src/machine.rs:556-609 | Over whole runs in which no interrupt strays the cached hart ends in the state of the cache-free hart; none strays where none vectors to its own pc |
| `CachedCpu.Cpu.InvalidateCaches` | crates/emulate-core/src/cpu/mod.rs:639-643 | After dropping the caches the hart agrees with the cache-free hart, whatever state, memory and generations became |
| `MuxCodec.DataRoundTrip` | relay/mux-protocol.ts:5-17 | A data frame decodes to its id and bytes exactly when the id is not 0 and it carries 1 to MUX_FRAME bytes |
| `MuxCodec.DataIsFaithful` | relay/mux-protocol.ts:12-17 | A frame that decodes is the encoding of what it decodes to |
| `MuxCodec.ControlRoundTrip` | relay/mux-protocol.ts:19-26 | A control line decodes to its id and command exactly when the command is one non-empty line and all fits 4096 characters |
| `MuxCodec.CreditRoundTrip` | relay/mux-protocol.ts:28-35 | ACK n and WINDOW n carry n exactly for 1 to MUX_WINDOW |
| `RelayLaws.PumpKeeps` | relay/multiplex.ts:133-149 | The draining loop keeps queue, credit, frame size, order, upload and download laws |
| `RelayLaws.AbortKeeps` | relay/multiplex.ts:159-168 | Aborting keeps them and leaves the channel dead |
| `RelayLaws.StopKeeps` | relay/multiplex.ts:86-91 | Closing the connection keeps them |
| `RelayLaws.DrainKeeps` | relay/multiplex.ts:133-157 | Draining, with the CLOSE of a graceful close, keeps them |
| `RelayLaws.SendTextKeeps` | relay/multiplex.ts:120-125 | Queueing a line keeps them |
| `RelayLaws.SendBinaryKeeps` | relay/multiplex.ts:126-132 | Queueing a download that left the quota queue restores them |
| `RelayLaws.GrantWindowKeeps` | relay/multiplex.ts:115-119 | Credit just read is applied exactly, or stops the connection |
| `RelayLaws.FinishKeeps` | relay/relay.ts:475-494 | Ending a flow keeps them |
| `RelayLaws.WriteTcpKeeps` | relay/relay.ts:442-449 | A TCP write, partial or not, acknowledged, keeps bytes in order and counted |
| `RelayLaws.ForwardChargedKeeps` | relay/relay.ts:424-434 | Forwarding a charged item keeps both streams in order |
| `RelayLaws.CompletePeerKeeps` | relay/relay.ts:436-440 | EOF and the end of the flow keep them |
| `RelayLaws.DrainQuotaKeeps` | relay/relay.ts:392-422 | The quota loop keeps them for every sequence of verdicts |
| `RelayLaws.DrainBacklogKeeps` | relay/relay.ts:451-459 | The backlog loop keeps them for every sequence of write counts |
| `RelayLaws.EnqueueKeeps` | relay/relay.ts:383-390 | Queueing bytes for quota, or refusing them, keeps them |
| `RelayLaws.ReceiveKeeps` | relay/multiplex.ts:105-110 | A data frame is queued, counted late, or dropped before admission, and always accounted for |
| `RelayLaws.OpenChannelKeeps` | relay/multiplex.ts:44-53 | A channel over the cap is answered and forgotten |
| `RelayLaws.OnMessageKeeps` | relay/multiplex.ts:33-68 | Every client message keeps the laws |
| `RelayLaws.OnEventKeeps` | relay/relay.ts:192-505 | Admission, dialing, TCP data, drain and end, quota answers, timeouts, the sweep of quiet flows and connection loss keep the laws |
| `RelayLaws.EnqueueCases` | relay/relay.ts:383-390 | Bytes are nothing, declined with the end of the flow at a limit, or queued for quota |
| `RelayEnds.CompletePeerEof` | relay/relay.ts:436-440 | When TCP ended and nothing waits, EOF is offered after every byte that came from TCP |
| `RelayEnds.DrainQuotaEof` | relay/relay.ts:392-422 | The quota loop offers EOF only after every byte |
| `RelayEnds.OnMessageEof` | relay/multiplex.ts:33-68 | Every client message keeps EOF the last thing offered, and cuts no byte off |
| `RelayEnds.OnEventEof` | relay/relay.ts:192-505 | Every event keeps EOF the last thing offered, and cuts bytes off if and only if it sweeps a flow quiet after FIN with room to say EOF and a download waiting for quota |
| `RelayEnds.QuietWhole` | relay/relay.ts:496-504 | Sweeping a quiet flow keeps EOF last, and cuts bytes off exactly when a download waits |
| `RelayEnds.MessageFins` | relay/relay.ts:467-469 | Only a FIN that was read is noted by a flow |
| `RelayEnds.EventFins` | relay/relay.ts:192-505 | No event notes one |
| `RelayEnds.EofIsLast` | relay/relay.ts:436-440 | A client that read EOF read everything offered, and every byte from TCP if and only if none was cut off |
| `RelayEnds.OnMessageSpoken` | relay/multiplex.ts:105-110 | No message makes the relay speak on a channel whose data would still be dropped |
| `RelayEnds.OnEventSpoken` | relay/relay.ts:192-505 | No event makes the relay speak on such a channel |
| `RelayBuffers.ReleasedBytesFit` | relay/relay.ts:362-376 | Bytes just released always fit back, so "buffer limit" arises only from new bytes |
| `RelayBuffers.PushAccounted` | relay/relay.ts:428-430 | Moving charged bytes to the backlog never ends the flow |
| `RelayBuffers.UnshiftMetered` | relay/relay.ts:447-448 | Putting back the rest of a write never ends the flow |
| `RelayBuffers.WriteTcpAccounted` | relay/relay.ts:442-449 | A TCP write keeps the count, and leaves an ended flow holding bytes if and only if acknowledging a partial write stopped the connection |
| `RelayBuffers.ForwardChargedAccounted` | relay/relay.ts:424-434 | Forwarding keeps the flow charged for exactly what it holds, and strands bytes if and only if it is such a write |
| `RelayBuffers.DrainQuotaAccounted` | relay/relay.ts:392-422 | So does the quota loop, if and only if one of its writes is |
| `RelayBuffers.DrainBacklogAccounted` | relay/relay.ts:451-459 | So does the backlog loop, if and only if one of its writes is |
| `RelayBuffers.EnqueueAccounted` | relay/relay.ts:383-390 | So does queueing new bytes, within the limits |
| `RelayBuffers.OnMessageAccounted` | relay/multiplex.ts:33-68 | So does every client message, if and only if a write in its course is such a write |
| `RelayBuffers.OnEventAccounted` | relay/relay.ts:192-505 | So does every event |
| `RelayProcess.PutKeeps` | relay/multiplex.ts:70-75 | A channel's step moves the process total and its connection's count by what its own counts moved |
| `RelayProcess.AbortAllKeeps` | relay/multiplex.ts:86-91 | Stopping a connection aborts all its channels and keeps every sum |
| `RelayProcess.StepKeeps` | relay/relay.ts:362-494 | Every step of any channel on any connection keeps the sums, and strands bytes if and only if its guard holds |
| `RelayProcess.TotalsAreSums` | relay/relay.ts:362-494 | Over runs of any number of connections with any number of channels: each flow is charged for its quota queue and backlog, the process total is the sum over the flows of all connections, each pendingBytes is the sum over its own channels; ended flows hold nothing if and only if no write was cut short by a full socket |
| `CreditProtocol.RelayNeverBreaksTheContract` | web/src/network/broker.ts:151-168 | Excess acknowledgement and exceeded receive window are unreachable |
| `CreditProtocol.ClientNeverExceedsItsCredit` | relay/multiplex.ts:105-119 | Excess credit and the upload window abort are unreachable |
| `CreditProtocol.StepKeeps` | relay/multiplex.ts:94-170 | Every step of either end keeps the joint invariant |
| `CreditProtocol.CreditIsConserved` | relay/multiplex.ts:105-151 | In every run: available + frames in flight + received + credit in flight = MUX_WINDOW, and outstanding = data in flight + incoming + acknowledgements in flight + dropped |
| `CreditProtocol.NobodyExceedsCredit` | web/src/network/broker.ts:145-170 | In no run does either end find the other beyond its credit |
| `CreditProtocol.StreamsAreInOrder` | relay/relay.ts:383-459 | In every run TCP got the client's bytes in order from the first one after admission, the client saw a prefix of what was offered, frames are 1 to MUX_FRAME bytes, a graceful CLOSE follows all |
| `CreditProtocol.EofMeansEverything` | relay/relay.ts:436-504 | In every run a client that read EOF read everything the relay was given to send, and every byte from TCP if and only if its flow was never swept as quiet with a download waiting |
| `CreditProtocol.CutStep` | relay/relay.ts:496-504 | A step cuts a download off exactly when it is that sweep |
| `CreditProtocol.WithoutFinEofIsWhole` | relay/relay.ts:467-504 | A client that sends no FIN and read EOF read every byte from TCP |
| `CreditProtocol.EarlyStep` | relay/multiplex.ts:105-107 | An upload is skipped by exactly the steps that read data before admission |
| `CreditProtocol.UploadsFromTheStart` | relay/relay.ts:383-459 | In every run TCP's k-th byte is upload byte number skipped + k, and nothing is skipped if and only if no data frame was read before admission |
| `CreditProtocol.WaitingClientLosesNothing` | relay/relay.ts:383-459 | A client that sends data only after the relay's first line has nothing skipped: TCP got a prefix of its uploads |
| `CreditExamples.EarlyByteIsSkipped` | relay/multiplex.ts:105-107 | A run in which TCP gets the second byte without the first |
| `CreditExamples.QuietFlowLosesADownload` | relay/relay.ts:496-504 | A run in which the client reads EOF and no byte although TCP delivered one |
| `CreditExamples.StoppedWriteStrandsBytes` | relay/relay.ts:442-449 | A run of the relay process from its start after which the total counts a byte of a flow that is over |
| `RelayServer.Peer.Reserve` | relay/multiplex.ts:70-74 | Bytes are reserved exactly when they fit the connection's buffer |
| `RelayServer.Conn.constructor` | relay/multiplex.ts:94-103 | A new channel has the full window and nothing queued |
| `RelayServer.Conn.Control` | relay/multiplex.ts:76-79 | A control is sent, or stops the connection when the socket is full |
| `RelayServer.Conn.Stop` | relay/multiplex.ts:86-91 | The connection closes and the channel aborts |
| `RelayServer.Conn.Abort` | relay/multiplex.ts:159-168 | The queue is dropped and released, CLOSE is sent, the flow ends |
| `RelayServer.Conn.Drain` | relay/multiplex.ts:133-157 | The loop sends exactly what socket and credit allow, then finishes a graceful close |
| `RelayServer.Conn.SendHead` | relay/multiplex.ts:136-148 | One round sends the head of the queue up to credit and frame size, or nothing |
| `RelayServer.Conn.SendText` | relay/multiplex.ts:120-125 | A line is queued, or a long queue aborts the channel |
| `RelayServer.Conn.SendBinary` | relay/multiplex.ts:126-132 | Bytes are queued and reserved, or the limits abort the channel |
| `RelayServer.Conn.GrantWindow` | relay/multiplex.ts:115-119 | Credit is added and the queue drained; credit beyond the window stops the connection |
| `RelayServer.Conn.Acknowledge` | relay/multiplex.ts:111-114 | Acknowledged bytes leave `incoming` and an ACK is sent |
| `RelayServer.Conn.Finish` | relay/relay.ts:475-494 | A flow ends once: buffers dropped and released, channel closed |
| `RelayServer.Conn.Reserve` | relay/relay.ts:362-371 | Bytes are charged exactly when flow, process and item limits allow, else the flow ends |
| `RelayServer.Conn.WriteTcp` | relay/relay.ts:442-449 | What TCP took is acknowledged and the rest goes back in front |
| `RelayServer.Conn.ForwardCharged` | relay/relay.ts:424-434 | The head of the quota queue goes to backlog, TCP or the client |
| `RelayServer.Conn.CompletePeer` | relay/relay.ts:436-440 | EOF and the end, once TCP ended and nothing waits |
| `RelayServer.Conn.DrainQuota` | relay/relay.ts:392-422 | The loop charges and forwards in order until a verdict is late, refused, throws, or nothing is left |
| `RelayServer.Conn.DrainBacklog` | relay/relay.ts:451-459 | The loop writes the backlog in order until TCP is congested |
| `RelayServer.Conn.WriteHead` | relay/relay.ts:454-456 | One round writes the head of the backlog and puts the rest back |
| `RelayServer.Conn.Enqueue` | relay/relay.ts:383-390 | Bytes over the byte cap end the flow; others are queued for quota |
| `RelayServer.Conn.Pend` | relay/relay.ts:387-389 | Bytes within the buffer limits are queued and charged, else the flow ends |
| `RelayServer.Conn.Receive` | relay/multiplex.ts:105-110 | A frame is dropped, aborts an exceeded window, or is queued |
| `RelayServer.Conn.Admit` | relay/relay.ts:197-208 | The flow is admitted, or refused with an answer |
| `RelayServer.Conn.Connect` | relay/relay.ts:313-324 | OK goes out and the backlog is written |
| `RelayServer.Conn.QuotaAnswer` | relay/relay.ts:406-414 | A late verdict forwards the head of the queue and goes on, or ends the flow |
| `RelayServer.Conn.NoteFin` | relay/relay.ts:467-469 | FIN is noted by a flow that is there and not over |
| `RelayServer.Conn.QuietEnd` | relay/relay.ts:496-504 | A connected flow with its FIN gets EOF and ends, whatever waits |
| `RelayServer.Conn.OnMessage` | relay/multiplex.ts:33-68 | Every client message has the effect the channel laws are proved for |
| `RelayServer.Conn.OnEvent` | relay/relay.ts:192-505 | Every event has the effect the channel laws are proved for |
| `RelayServer.Conn.Serve` | relay/multiplex.ts:94-170 | Over any sequence of messages, events and changes by other channels the object keeps every law of credit, order, CLOSE and EOF, and a download is cut off if and only if a quiet flow was swept with one waiting |
| `PortLaws.WithinLimits` | web/src/network/broker.ts:112-119 | One more data message of an honest port keeps the broker within the channel window and the port limit |
| `PortLaws.BrokerNeverObjects` | web/src/network/broker.ts:86-124 | No message of the port makes the broker close a channel or detach the port |
| `PortLaws.PortNeverObjects` | web/src/network/transport.ts:37-42 | No acknowledgement makes the port close a flow |
| `PortLaws.FramesOf` | web/src/network/transport.ts:66-69 | The frames of a send are 1 to MUX_FRAME bytes and together are the bytes |
| `PortLaws.StepKeeps` | web/src/network/transport.ts:24-83 | Every step of port and broker keeps the joint invariant, with closes crossing on the two queues |
| `PortLaws.NobodyObjects` | web/src/network/transport.ts:37-86 | In every run neither side objects to the other, and pending = in flight + held by the broker + acknowledgements in flight |
| `GuestPort.NetworkPort.Open` | web/src/network/transport.ts:24-30 | A new flow gets the next id, or 0 at the limits |
| `GuestPort.NetworkPort.SendText` | web/src/network/transport.ts:55-60 | Whatever line the guest sends on a live flow is posted |
| `GuestPort.OrderlyGuest` | web/src/network/transport.ts:55-71 | A guest that sends its command once announced, and FIN and data after it, drives the port as the port protocol has it |
| `GuestPort.NetworkPort.SendBinary` | web/src/network/transport.ts:61-71 | All bytes or none, exactly as window and port limit allow, counted once and posted in frames |
| `GuestPort.NetworkPort.BufferedAmount` | web/src/network/transport.ts:72-75 | A send is accepted exactly when it fits the window above this amount |
| `GuestPort.NetworkPort.Close` | web/src/network/transport.ts:76-83 | The flow's bytes are given back and its events dropped |
| `GuestPort.NetworkPort.DropEvents` | web/src/network/transport.ts:109-112 | Exactly the flow's events are dropped |
| `GuestPort.NetworkPort.Receive` | web/src/network/transport.ts:31-54 | Acknowledgements, data and closes update the flow as the protocol says |
| `GuestPort.NetworkPort.Poll` | web/src/network/transport.ts:113-121 | All events are handed over and each one's bytes given back, in order |
| `Broker.RelayBroker.Flush` | web/src/network/broker.ts:133-143 | The front of the queue is written in order as far as there is room |
| `Broker.RelayBroker.DropQueued` | web/src/network/broker.ts:176-180 | Exactly the channel's messages leave the queue, and the measure follows |
| `Broker.RelayBroker.Forget` | web/src/network/broker.ts:172-181 | The channel leaves every table and its port is told |
| `Broker.RelayBroker.Close` | web/src/network/broker.ts:172-187 | Closing forgets the channel and tells the relay; through a full socket it loses the connection with every channel |
| `Broker.RelayBroker.Lost` | web/src/network/broker.ts:188-196 | Every channel of every port is closed, in some order that names them all, and the queue is empty |
| `Broker.RelayBroker.CloseAll` | web/src/network/broker.ts:193-194 | All channels of a port are closed one by one |
| `Broker.RelayBroker.Enqueue` | web/src/network/broker.ts:126-132 | A message is queued and written as there is room, or its channel is closed at the limits, also when that loses the connection |
| `Broker.RelayBroker.Message` | web/src/network/broker.ts:86-124 | The whole new state for every port message: opened, refused, closed, counted and queued, or the port dropped |
| `Broker.RelayBroker.Take` | web/src/network/broker.ts:104-123 | An accepted message is counted, given a wire id if it is the command, and queued |
| `Broker.RelayBroker.Receive` | web/src/network/broker.ts:145-170 | The whole new state for every relay message; a breach of credit drops the connection |
| `Broker.RelayBroker.Open` | web/src/network/broker.ts:89-99 | A channel is opened, and announced when there is a connection, or refused |
| `Broker.RelayBroker.Detach` | web/src/network/broker.ts:208-213 | The port is gone after each of its channels was closed at the relay, or lost with the connection if the socket is full; without ports the connection is gone |
| `Broker.RelayBroker.constructor` | web/src/network/broker.ts:14-29 | A new broker has no ports, channels or connection |
| `Broker.RelayBroker.Attach` | web/src/network/broker.ts:31-44 | A new port has no channels |
| `Broker.RelayBroker.Connected` | web/src/network/broker.ts:62-68 | Every channel of every port is announced |
| `Broker.RelayBroker.AnnouncePort` | web/src/network/broker.ts:67-68 | Every channel of one port is announced once |
| `Broker.RelayBroker.Opened` | web/src/network/broker.ts:80-85 | A channel is announced once |
| `Broker.RelayBroker.DetachOne` | web/src/network/broker.ts:208-210 | One more channel of a port that goes is closed |
| `BrokerModel.MessageRouted` | web/src/network/broker.ts:86-124 | After any port message that does not drop the port, objected to or not, wire ids and channels name each other, and a channel has one exactly once it sent its command |
| `BrokerModel.HearRouted` | web/src/network/broker.ts:145-170 | After any relay message they still do |
| `BrokerModel.LoseRouted` | web/src/network/broker.ts:188-196 | The tables agree after the connection is lost |
| `BrokerModel.DetachLoopRouted` | web/src/network/broker.ts:208-213 | While a port goes, the tables agree after each channel |
| `BrokerModel.DetachOrder` | web/src/network/broker.ts:208-213 | The outcome depends on the order of closing only if the connection is lost meanwhile |
| `BrokerClients.FlushMirrors` | web/src/network/broker.ts:133-143 | Writing the shared queue flushes each channel's own messages in order |
| `BrokerClients.CloseMirrors` | web/src/network/broker.ts:172-187 | Closing a channel, or losing the connection by it, closes each client concerned and no other |
| `BrokerClients.AcceptMirrors` | web/src/network/broker.ts:104-123 | An accepted message is one step of its own channel's client |
| `BrokerClients.CommandMirrors` | web/src/network/broker.ts:104-111 | A command makes a fresh client |
| `BrokerClients.MessageMirrors` | web/src/network/broker.ts:86-124 | Every port message that does not drop the port, objected to or not, is a run of each channel's client |
| `BrokerClients.HearMirrors` | web/src/network/broker.ts:145-170 | Every relay message is read by its client, and gives no cause to drop the connection |
| `BrokerClients.DetachLoopMirrors` | web/src/network/broker.ts:208-213 | A port that goes closes its channels' clients, at the relay or with the connection, and leaves the others |
| `BrokerPorts.MessageFollows` | web/src/network/broker.ts:86-124 | For the port it came from, every message that does not drop the port is steps of the port protocol |
| `BrokerPorts.MessageElsewhere` | web/src/network/broker.ts:86-124 | For every other port, a message is steps of that port's protocol |
| `BrokerPorts.HearFollows` | web/src/network/broker.ts:145-170 | A relay message is steps of the port protocol for the port it is for |
| `BrokerPorts.LoseFollows` | web/src/network/broker.ts:188-196 | Losing the connection closes every channel of a port, step by step of its protocol |
| `BrokerPorts.ConnectFollows` | web/src/network/broker.ts:62-68 | A new connection announces every channel of a port, step by step of its protocol |
| `BrokerPorts.DetachLoopFollows` | web/src/network/broker.ts:208-213 | Another port that goes is steps of this port's protocol |
| `Network.StepKeeps` | web/src/network/broker.ts:31-213 | Every event of guests, broker, sockets and relay keeps each port a run of the port protocol and each channel a run of the credit protocol |
| `Network.EverythingIsARun` | web/src/network/broker.ts:31-213 | In every run of the whole network each port is in a state of the port protocol and each wire id in a state of the credit protocol |
| `Network.NobodyIsAtFault` | web/src/network/broker.ts:86-170 | In every run no port message makes the broker object, no relay message is a breach of credit, no broker message exceeds the relay's window |
| `Network.StreamsThroughTheBroker` | relay/relay.ts:383-504 | In every run and for every channel both streams are in order through the broker, and EOF follows every byte if and only if the flow was never swept as quiet with a download waiting |
| `Network.ThreeTiers` | web/src/network/transport.ts:61-86 | In every run a flow's pending bytes = to the broker + queued and on the wire to the relay + held by the relay + acknowledged on either hop + dropped; and the download window is split likewise |
| `Network.NoChannelIsReused` | relay/multiplex.ts:43-45 | In every run a relay, wherever it starts reading, finds each command's id above its last one |
| `BrokerOrder.OthersRise` | web/src/network/broker.ts:176-180 | Dropping a channel's messages from the queue keeps the commands rising |
| `BrokerOrder.FlushOrder` | web/src/network/broker.ts:133-143 | So does writing the front of the queue |
| `BrokerOrder.TakeOrder` | web/src/network/broker.ts:104-123 | A command gets an id above all written and queued ones, also when it is refused |
| `BrokerOrder.MessageOrder` | web/src/network/broker.ts:86-124 | Every port message keeps the commands rising |
| `NativeTransport.TungsteniteTransport.Fail` | crates/emulate-cli/src/net/transport.rs:87-96 | Every channel is gone and nothing is pending |
| `NativeTransport.TungsteniteTransport.Send` | crates/emulate-cli/src/net/transport.rs:98-118 | A message is written, or the connection ends |
| `NativeTransport.TungsteniteTransport.Open` | crates/emulate-cli/src/net/transport.rs:217-243 | A new channel gets the next id, or none at the limits |
| `NativeTransport.TungsteniteTransport.SendText` | crates/emulate-cli/src/net/transport.rs:245-261 | The first text is the command, later ones FIN, on announced channels and within 4000 characters; accepted exactly then |
| `NativeTransport.TungsteniteTransport.SendBinary` | crates/emulate-cli/src/net/transport.rs:263-284 | All bytes or none, within window and shared limit, written in frames; a socket that fails in between ends the connection after exactly the frames it took |
| `NativeTransport.TungsteniteTransport.WriteFrames` | crates/emulate-cli/src/net/transport.rs:275-283 | The chunk loop writes exactly the frames of the bytes |
| `NativeTransport.TungsteniteTransport.BufferedAmount` | crates/emulate-cli/src/net/transport.rs:286-292 | A send fits exactly when it fits the window above this amount |
| `NativeTransport.TungsteniteTransport.Receive` | crates/emulate-cli/src/net/transport.rs:141-197 | Acknowledgements, data and CLOSE update the channel; a breach of credit ends the connection |
| `NativeTransport.TungsteniteTransport.Close` | crates/emulate-cli/src/net/transport.rs:294-303 | The channel is gone, its bytes given back, and a started one is closed at the relay |
| `NativeTransport.TungsteniteTransport.CreditBack` | crates/emulate-cli/src/net/transport.rs:351-361 | Every channel's received bytes are given back, lowest id first, up to where the socket fails |
| `NativeTransport.TungsteniteTransport.constructor` | crates/emulate-cli/src/net/transport.rs:36-49 | A new transport has no connection and no channels |
| `NativeTransport.TungsteniteTransport.Announce` | crates/emulate-cli/src/net/transport.rs:316-323 | Every channel is announced |
| `NativeTransport.TungsteniteTransport.Hear` | crates/emulate-cli/src/net/transport.rs:324-350 | Messages are read in order until the connection ends |
| `NativeTransport.TungsteniteTransport.Poll` | crates/emulate-cli/src/net/transport.rs:305-376 | The whole new state of a poll: socket taken or failed, channels announced, messages read, credit given back |
| `NativeModel.DataSane` | crates/emulate-cli/src/net/transport.rs:263-284 | A send keeps the shared count the sum over channels, within window and limit |
| `NativeModel.HearSane` | crates/emulate-cli/src/net/transport.rs:141-197 | Every relay message keeps it so |
| `NativeModel.TextMirrors` | crates/emulate-cli/src/net/transport.rs:245-261 | A line is steps of each channel's client, also when the socket fails |
| `NativeModel.DataMirrors` | crates/emulate-cli/src/net/transport.rs:263-284 | A send is its frames one by one for the channel's client, cut off where the socket fails |
| `NativeModel.CloseMirrors` | crates/emulate-cli/src/net/transport.rs:294-303 | A close is one close for the channel's client, or the loss of the connection for all |
| `NativeModel.CreditMirrors` | crates/emulate-cli/src/net/transport.rs:351-361 | Giving credit back is one credit for each client that got its line out |
| `NativeModel.HearMirrors` | crates/emulate-cli/src/net/transport.rs:141-197 | A relay message is read by its client, and gives no cause to end the connection |
| `NativeRuns.StepKeeps` | crates/emulate-cli/src/net/transport.rs:216-376 | Every event of transport, socket and relay keeps each channel a run of the credit protocol |
| `NativeRuns.EveryChannelIsARun` | crates/emulate-cli/src/net/transport.rs:216-376 | In every run each channel that wrote its command is in a state of the credit protocol, and no relay message is a breach |
| `NativeRuns.PendingIsSomewhere` | crates/emulate-cli/src/net/transport.rs:263-284 | In every run a channel's pending bytes = on the wire + held by the relay + acknowledged on the wire + dropped |
| `NativeRuns.StreamsThroughTheTransport` | relay/relay.ts:383-504 | In every run and for every channel both streams are in order through the transport, with the same exact condition on EOF |
| `NativeRuns.CommandsRise` | crates/emulate-cli/src/net/transport.rs:318-323 | In every run commands are written in the order of their ids if and only if no channel writes its own after one with a higher id |
| `NativeRuns.PollIsARun` | crates/emulate-cli/src/net/transport.rs:305-376 | A poll that reads what the relay sent is a run of these events |
| `Overflow.RoundingKeepsOrder` | crates/emulate-core/src/cpu/fpu.rs:265-276 | Rounding never crosses a number that needs none |
| `Overflow.CloseDifference` | crates/emulate-core/src/cpu/fpu.rs:265-276 | Numbers within a factor of two differ by one that needs no rounding |
| `Overflow.GapDecides` | crates/emulate-core/src/cpu/fpu.rs:257-266 | Same signs: comparing with the rounded gap decides the exact sum |
| `Overflow.ExcessDecides` | crates/emulate-core/src/cpu/fpu.rs:267-277 | Opposite signs: comparing with the rounded excess decides it |
| `Overflow.SumDecision` | crates/emulate-core/src/cpu/fpu.rs:247-278 | The comparison with a limit agrees with the exact sum |
| `Overflow.Threshold` | crates/emulate-core/src/cpu/fpu.rs:280-307 | Rounding with an unbounded exponent reaches 2^emax exactly at the limit of each mode |
| `Overflow.OverflowIsExact` | crates/emulate-core/src/cpu/fpu.rs:247-307 | The decision holds if and only if the real sum, rounded in that mode with an unbounded exponent, is at least 2^emax in magnitude |
| `Overflow.LimitEncodings` | crates/emulate-core/src/cpu/fpu.rs:309-329 | The bit patterns of midpoint and 2^emax are those limits |
| `Overflow.InstancesAreUsual` | crates/emulate-core/src/cpu/fpu.rs:309-329 | Single decided in double and double in quad both satisfy the theorem's conditions |
| `Session.LastRequestWins` | web/src/session/session.ts:46-149 | In every interleaving at most one machine is live and current; running means the newest request's machine; when all is quiet the newest request decided |
| `Session.AskKeeps` | web/src/session/session.ts:52-149 | A request keeps the invariant |
| `Session.BeginKeeps` | web/src/session/session.ts:61-65 | Starting the next task, or skipping a superseded one, keeps it |
| `Session.SettleKeeps` | web/src/session/session.ts:90-136 | A resolution or rejection keeps it; superseded machines are destroyed |
| `Session.DisposedIsFinal` | web/src/session/session.ts:138-149 | A step leaves "disposed" if and only if it handles a rejected disposal |
| `Session.DisposedForever` | web/src/session/session.ts:138-149 | After a disposal that did not reject, every run stays disposed with no machine |
| `Session.RejectedDisposalFails` | web/src/session/session.ts:138-149 | A run from "disposed" to "failed" |
| `SessionController.Controller.constructor` | web/src/session/session.ts:25-44 | A new session is stopped |
| `SessionController.Controller.Handle` | web/src/session/session.ts:46-149 | Whatever is called and however awaits settle, the object is in the state of that run: running means the newest request's machine, no other machine is left, and when all is quiet the newest request decided |
| `Sha256.AbsorbMore` | crates/emulate-core/src/snapshot.rs:304-317 | Copying bytes in and compressing full blocks keeps the chaining value the fold over whole blocks |
| `Sha256.LastBlock` | crates/emulate-core/src/snapshot.rs:319-330 | The final block completes the FIPS 180-4 padding |
| `Sha256.Digest` | crates/emulate-core/src/snapshot.rs:330-334 | The words are written big-endian |
| `Sha256.Hasher.Update` | crates/emulate-core/src/snapshot.rs:304-317 | After an update the hasher holds the message with the data appended |
| `Sha256.Hasher.Finish` | crates/emulate-core/src/snapshot.rs:319-335 | The digest is the fold over the padded message; the padding loop terminates |
| `Sha256.HashChunks` | crates/emulate-core/src/snapshot.rs:292-335 | However the message is cut, the digest is that of the whole |
| `Sha256.HashImages` | crates/emulate-core/src/snapshot.rs:245-252 | The digest of the length-prefixed chunks |
| `Sha256.FramingIsInjective` | crates/emulate-core/src/snapshot.rs:245-252 | Different chunk lists are never the same message |
| `Seeder.DiskSeeder.constructor` | crates/emulate-wasm/src/disk.rs:272-301 | A new seeder holds an empty disk |
| `Seeder.DiskSeeder.Write` | crates/emulate-wasm/src/disk.rs:303-330 | A chunk of any length is taken in; a stream longer than the disk is refused, for good |
| `Seeder.DiskSeeder.Step` | crates/emulate-wasm/src/disk.rs:312-328 | One round moves bytes on and emits full blocks |
| `Seeder.DiskSeeder.Emit` | crates/emulate-wasm/src/disk.rs:332-364 | The sink then holds one more block of the stream, zero blocks skipped |
| `Seeder.DiskSeeder.Batch` | crates/emulate-wasm/src/disk.rs:345-361 | Image plus unwritten batch hold the block, however runs are batched |
| `Seeder.DiskSeeder.FlushBatch` | crates/emulate-wasm/src/disk.rs:366-374 | The batch is in the image and empty |
| `Seeder.DiskSeeder.Finish` | crates/emulate-wasm/src/disk.rs:382-402 | The finished disk is the stream, and any other length is refused |
| `Seeder.Seed` | crates/emulate-wasm/src/disk.rs:263-402 | Any cut of the stream into either sink: succeeds exactly for a usable size and a stream of that length, and the disk is the stream |
| `Snapshot.PrefixedTrip` | crates/emulate-core/src/snapshot.rs:115-118 | Length-prefixed bytes read back exactly when shorter than 2^32 |
| `Snapshot.WordsTrip` | crates/emulate-core/src/snapshot.rs:106-108 | 64-bit fields read back and consume exactly themselves |
| `Snapshot.SectionTrip` | crates/emulate-core/src/snapshot.rs:127-235 | A section reads back exactly when its body is shorter than 2^32 |
| `Snapshot.HeaderTrip` | crates/emulate-core/src/snapshot.rs:434-468 | The header reads back and is consumed exactly |
| `Snapshot.HartTrip` | crates/emulate-core/src/cpu/mod.rs:645-697 | Registers, pc, mode, reservation and WFI read back |
| `Snapshot.CsrTrip` | crates/emulate-core/src/cpu/csr.rs:444-478 | The CSR file reads back |
| `SnapshotRam.PagesLoad` | crates/emulate-core/src/ram.rs:139-198 | Loading the non-zero pages onto zeros restores RAM page by page |
| `SnapshotRam.PagesTrip` | crates/emulate-core/src/ram.rs:139-183 | Pages read back, a short last page included |
| `SnapshotRam.RamTrip` | crates/emulate-core/src/ram.rs:139-198 | RAM of any size comes back byte for byte |
| `SnapshotRam.TakenPagesFit` | crates/emulate-core/src/ram.rs:160-183 | Whatever parses fits the RAM it is for |
| `SnapshotRam.Capture` | crates/emulate-core/src/ram.rs:132-152 | The loops write exactly the RAM section |
| `SnapshotRam.Load` | crates/emulate-core/src/ram.rs:186-197 | RAM is the loaded pages on zeros, and generations restart at 1 for them and 0 elsewhere |
| `DiskOverlay.ComputeDiff` | crates/emulate-core/src/snapshot.rs:519-538 | Exactly the blocks that differ, or an error for different lengths |
| `DiskOverlay.DiffApplies` | crates/emulate-core/src/snapshot.rs:519-538 | Applying diff(o, m) to o gives m, and applying it again changes nothing |
| `DiskOverlay.OverlayTrip` | crates/emulate-core/src/snapshot.rs:540-560 | Whole blocks read back |
| `DiskOverlay.DiffIsWhole` | crates/emulate-core/src/snapshot.rs:519-560 | The differences of block-multiple images are whole blocks |
| `DiskOverlay.Apply` | crates/emulate-core/src/snapshot.rs:685-702 | Writing through succeeds exactly when every block is inside the disk, and the disk is then the blocks on the old one |
| `DiskOverlay.PatchedIsLoaded` | crates/emulate-core/src/snapshot.rs:685-702 | Whole blocks are written as pages are loaded |
| `SnapshotMachine.ContainerTrip` | crates/emulate-core/src/snapshot.rs:573-669 | Restoring what was written consumes exactly that and returns header, hart, CSRs, devices, overlay and pages that rebuild RAM |
| `SnapshotMachine.MismatchIsRefused` | crates/emulate-core/src/snapshot.rs:630-660 | A container from other images, disk, RAM size or timebase is refused |
| `SnapshotMachine.DevicesTrip` | crates/emulate-core/src/snapshot.rs:127-235 | Any list of device sections reads back |
| `SnapshotMachine.RestoredFits` | crates/emulate-core/src/snapshot.rs:662-669 | Whatever a restore accepts fits the machine's RAM |
| `SnapshotCore.BitsOfWord` | crates/emulate-core/src/cpu/csr.rs:444-456 | A set of bits below 64 comes back from its word |
| `SnapshotCore.StatusTrip` | crates/emulate-core/src/cpu/csr.rs:274-287 | mstatus comes back from its slot field by field |
| `SnapshotCore.LayoutTrip` | crates/emulate-core/src/cpu/mod.rs:645-697 | A hart comes back from its two sections if and only if its registers fit them |
| `SnapshotRuns.WriteFits` | crates/emulate-core/src/cpu/csr.rs:316-372 | Every permitted CSR write leaves a file that fits |
| `SnapshotRuns.AddressBound` | crates/emulate-core/src/mmu.rs:213-226 | Every translated address fits the reservation field |
| `SnapshotRuns.RunFits` | crates/emulate-core/src/machine.rs:556-609 | Every run from registers that fit leaves registers that fit |
| `SnapshotRuns.EveryRunComesBack` | crates/emulate-core/src/cpu/mod.rs:645-697 | Whatever a hart ran since reset, its captured registers restore it |
| `SnapshotIo.Writer.Section` | crates/emulate-core/src/snapshot.rs:127-134 | A nested body is appended behind version and length |
| `SnapshotIo.Writer.Hart` | crates/emulate-core/src/cpu/mod.rs:645-668 | The hart's fields are appended in order |
| `SnapshotIo.Reader.Raw` | crates/emulate-core/src/snapshot.rs:153-164 | The cursor takes exactly n bytes or fails |
| `SnapshotIo.Reader.Bool` | crates/emulate-core/src/snapshot.rs:170-176 | Only 0 and 1 are booleans |
| `SnapshotIo.Reader.Section` | crates/emulate-core/src/snapshot.rs:212-235 | A section of the expected version yields its body |
| `SnapshotIo.Reader.Numbers` | crates/emulate-core/src/snapshot.rs:188-193 | n 64-bit fields are read in order |
| `SnapshotIo.RestoreMemory` | crates/emulate-core/src/snapshot.rs:662-669 | After loading RAM and dropping caches the hart agrees with the cache-free hart in the restored state, although generations restarted |
| `SnapshotIo.RestoreMachine` | crates/emulate-core/src/snapshot.rs:615-669 | Container in, running hart out: succeeds exactly when the container is whole and admitted, holds what was read, equals in registers and memory any hart whose capture the container is, and agrees with the cache-free hart |

## Left out

- Instruction decoding, the integer, bit-manipulation, AES and SHA units and F/D arithmetic: any functions of their inputs.
- F/D loads and stores, and the FS bookkeeping around them.
- PLIC, UART, RTC, VirtIO, framebuffer and host network devices: arbitrary functions of a device state, never cached.
- Wrap-around of page generations and of the TLB's flush count: counters are unbounded.
- Counters of cache hits and of touched pages.
- Counter details of `cycle` and `instret` beyond what a step adds.
- In `CreditProtocol` and `Network`, that one channel's stop reaches the other channels of its connection at once: each sees it as an event of its own. `RelayProcess` has it at once.
- The text of commands and replies: CONNECT and RESOLVE are one message, and replies are OK, ERR, EOF or IP. `MuxCodec` covers the framing.
- The broker's reconnect timer, heartbeats, pings and lease expiry: at most an event that closes channels.
- The limit of 128 channels over all ports: whether it allows one more is an argument of `Broker.RelayBroker.Open`.
- The order in which a broker walks its tables when it closes or announces channels: any order, and in `Network` any list of channels.
- What order between different ports' messages the broker's thread sees: any.
- Reply lines on the port's queues, and which of several guests on a port polls.
- A socket that throws while the broker flushes: the loss of the connection is an event of its own.
- Read pressure on TCP: data may arrive at any time.
- DNS, address policy, Redis limits, origins and timers of the relay: verdicts and events that may come at any time, each with what it sends.
- Failing image I/O in the seeder, and reading back through the sparse backend.
- The SHA-256 compression rounds and hex digits.
- Device section bodies of a snapshot: bytes that come back as they were.
- Host clock and framebuffer steps of a restore, and what a failed restore leaves behind.
- SnapshotIo.RestoreMachine: does not restore the floating-point registers, devices and the disk, which no hart of the model has; they come back as captured by `SnapshotMachine.ContainerTrip` and `DiskOverlay.Apply`.
- The dialling thread of the native transport and a second relay URL, which is refused.
- UI, terminal, display, metrics, downloads, boot images, ELF loading and the command line.
