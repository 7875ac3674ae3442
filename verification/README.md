# Perenne kernel: verified model

Perenne is a single-hart capability microkernel for 64-bit RISC-V. This project
models four of its parts in Dafny and proves what they promise.

1. **Scheduler, IPC and capabilities.** One state machine over the task array.
   Every system call, timer preemption, device interrupt and crash is one atomic
   step (`Steps.dfy`), because they run in the trap handler with interrupts off.
   The half of a blocked `recv` that runs at the next dispatch is kept as a
   continuation in the task. `Scheduler.dfy` is the imperative form, a class over
   the task array whose every method is proved to do exactly the step. `Switching`
   and `Answers` say from outside, by the event and the tables alone, what a step does
   to each task and what every system call returns, however long it takes;
   `Receiving` what a receive brings and who can answer a caller. The invariants of
   whole runs are in `Lifecycle`, `Matching`, `Confinement`, `Conservation`, `Control`
   and, put together from boot, `Reachable`; `Witnesses` has runs from boot showing
   that their conditions cannot be dropped.
2. **Frames and Sv39 page tables.** The bitmap allocator refines a set of frames
   (`Frames`). `Paging` defines the hardware walk of section 4.3.2 of the RISC-V
   Privileged Architecture, version 20211203, and the forest shape under which one
   write changes one page. `Gaps` counts the tables a range of addresses lacks, `Mmu`
   is `map_page` and `map_range`, `Spaces` the address spaces made from them, `Rights`
   what user mode can reach in them.
3. **Volume, knowledge base and memory across boots.** `Volume`, `Append`, `Mkfs`
   and `BlockCache` are the on-disk format, the crash-safe append, the image builder
   and the one-block cache over a device that may fail. `Utf8` says which bytes are
   text and where text may be cut, `Kb` and `KbFields` are the
   entry parser, the printer and the fixed-width fields overwritten in place;
   `KbBlock` and `KbEntry` the same for blocks and entries of any layout. `Heal` is
   the knowledge table, `Memory` one boot of it, `KbWriter` and `Loader` the tasks
   that write and load it, `KbVolume` volumes of entries, `Reboots` sequences of
   boots over the bytes of the disk, `Chronic` the quarantine. `KbInstances` shows
   that printed entries are covered, with any body, and the one that ships provided
   that the rest of its head is valid text, names a playbook and sets neither field.
4. **Wire formats.** `Checksum`, `Frame`, `FrameBuilder`, `Dhcp` and `Dns`.

A byte is a character below 256, so byte strings and text are the same type.
Integers are unbounded; 16-, 32- and 64-bit truncation is written out where the code
depends on it. An assertion or `expect` that stops the kernel is an outcome of the
model (`Panic`, `Mapping`, `Built`, a `false` or `None` result), not a precondition.
Parameters stand for what the model cannot see: linker symbols and device addresses,
the fate of each device request, the idle slot.

Where the code does not do what its comments say, the model follows the code:

* `revoke` is described as total, but a capability in flight survives it and is
  installed by the receiver's next dispatch (`Confinement.RevokeExact`,
  `Witnesses.RevokedTooEarly`).
* A Reply capability can be copied by `grant`, and `restart` accepts a task that is
  waiting for a reply; both break the matching of calls and replies
  (`Matching.MatchedStep`, `Witnesses.CopiedReply`, `Witnesses.RestartedCaller`).
* `block_count` overflows for the last 511 lengths of a 32-bit count: a development
  build stops there, a build without overflow checks gets 0, which is the value the
  model uses (`Volume.BlockCountExact`). A read of a block numbered from 2^31 is taken by
  the block server as a write (`BlockCache.ReadTakenAsWrite`).
* The in-place updates find the first `seen: ` and `escalated: ` of the block, which
  are the fields only if no earlier string contains that text
  (`KbFields.SeenFieldExact`, `KbFields.FlagFieldExact`).
* The loader reads the first 1024 bytes of an entry as enough for its frontmatter,
  but a valid file with a character lying over byte 1024 is not valid text when cut
  there: the image builder packs it and no boot loads it (`KbVolume.LoadedExact`,
  `KbInstances.StraddlingLost`, `KbInstances.OneStraddles`).
* `build_echo_reply` answers any ICMP message, not only echo requests
  (`Frame.AnsweredExact`, `Frame.AnyTypeAnswered`), keeps Ethernet padding as
  payload (`Frame.ReplyToRequest`), and writes code 0 where its comment says the code
  is kept, so that it is kept exactly when it was 0 (`Frame.ReplyIs`).
* An address from 2^39 up is mapped at its remainder (`Mmu.VpnAlias`).

## Model

| member | source | states |
|---|---|---|
| `Reachable.AlwaysSound` | arch/riscv64/src/sched.rs:237-1185 | In every state reachable from boot, when no Reply capability is granted, only Exited tasks are restarted and idle only yields: calls match replies, no rendezvous is missed, continuations and what is pending fit states, exactly the current slot is Running with idle Ready or current, restarts stay in bounds; and a step panics exactly when it names a slot that was never set up |
| `Reachable.StartIsSound` | arch/riscv64/src/sched.rs:159-186 | Spawned tasks and the first dispatch satisfy all the invariants |
| `Reachable.SoundStep` | arch/riscv64/src/sched.rs:408-1185 | Every disciplined step keeps all the invariants together |
| `Reachable.AlwaysAnswerable` | arch/riscv64/src/sched.rs:591-965 | In every such state every task waiting for a reply is named by exactly one token, as long as no receive on the way has overwritten a token or had no slot for the one it brought |
| `Matching.MatchedStep` | arch/riscv64/src/sched.rs:591-999 | A step keeps every reply token naming its own waiting caller if and only if it does not grant a Reply capability or restart a named task |
| `Matching.MatchedRun` | arch/riscv64/src/sched.rs:591-999 | The same along every run, up to and including the first step that tampers |
| `Matching.ExitedRestartIsSafe` | arch/riscv64/src/sched.rs:1009-1053 | Restarting an Exited task never tampers |
| `Matching.ReplyWakesItsCaller` | arch/riscv64/src/sched.rs:972-999 | A held Reply(c) makes exactly c Ready with the reply in its inbox, is spent, leaves no other token for c, and changes no third task |
| `Receiving.RecvTakes` | arch/riscv64/src/sched.rs:591-627 | A recv with a sender waiting takes from the first in a send or grant, else the first in a call: the receiver has its message in the registers and, in the slot it named, the capability it carried or else the right to answer it; the sender waits for the answer or goes on; nothing else changes |
| `Receiving.AnswerableStep` | arch/riscv64/src/sched.rs:591-658 | A step keeps every waiting caller named by a token if and only if the receive that ends in it overwrites none and has a slot for the one it brings |
| `Receiving.StaysAnswerable` | arch/riscv64/src/sched.rs:591-658 | The first half of that without assuming that tokens match |
| `Receiving.TidyStep` | arch/riscv64/src/sched.rs:591-965 | Restarting only Exited tasks keeps a pending caller or capability only where a receive or a waiting grant will hand it over |
| `Switching.OtherIs` | arch/riscv64/src/sched.rs:408-1185 | What a step does to every task it does not switch from or to: the first waiting receiver or sender its event reaches, the caller it answers, the task it relaunches, the first one waiting for its interrupt, the tables it revokes from, and nothing else |
| `Switching.LeaverIs` | arch/riscv64/src/sched.rs:553-577 | How the task that leaves the hart is parked, for every event, and that it is parked only without a partner |
| `Switching.RunnerIs` | arch/riscv64/src/sched.rs:530-647 | How the task that comes to the hart runs on: where it was, with its generation, with 0, or with its message and what came with it |
| `Answers.StayerIs` | arch/riscv64/src/sched.rs:591-1185 | What every system call answers at once: 0, usize::MAX, the count of slots a revoke clears, or the message a recv finds |
| `Answers.CallsReturn` | arch/riscv64/src/sched.rs:237-1185 | Along every run, what a task finds in its registers when it next runs after each system call or preemption: unchanged, a code in a0, or the message got on the channel it waited on; after exit or a crash it does not run again unless relaunched |
| `Lifecycle.Changes` | arch/riscv64/src/sched.rs:408-1185 | The complete list of state changes a step can make to a task, and of changes to its restart count |
| `Lifecycle.RendezvousRun` | arch/riscv64/src/sched.rs:591-965 | No run reaches a state in which an endpoint has both a waiting receiver and a waiting sender or caller |
| `Lifecycle.CallerLeaves` | arch/riscv64/src/sched.rs:972-1053 | A task leaves AwaitingReply only by the reply spent on it or by its own restart |
| `Conservation.SentIs` | arch/riscv64/src/sched.rs:458-999 | What a step sends is determined by the event and the sender's table: the message or badge on the endpoint its slot holds, the reply to the caller its slot names, the crash badge of a restartable task that is not quarantined when a healer waits |
| `Conservation.GotIs` | arch/riscv64/src/sched.rs:520-647 | What a step delivers is what the task then on the hart has in its registers, if it received or was parked in a recv or a call |
| `Conservation.StepBalance` | arch/riscv64/src/sched.rs:591-999 | For every message, in transit plus sent equals in transit plus got over a step, both as above, if and only if the step does not restart a task that carries it |
| `Conservation.MessagesConserved` | arch/riscv64/src/sched.rs:591-999 | Along every run that drops none, each message sent on a channel is received on it once, unaltered, or still in transit |
| `Conservation.ExitedCarriesNothing` | arch/riscv64/src/sched.rs:1009-1053 | Restarting an Exited task drops no message |
| `Confinement.CapFlow` | arch/riscv64/src/sched.rs:591-772 | A step gives a task a non-Reply capability only out of flight or by the grant of a holder |
| `Confinement.NoNewAuthority` | arch/riscv64/src/sched.rs:591-772 | Every non-Reply capability held or in flight after any run was there at its start |
| `Confinement.TableChanges` | arch/riscv64/src/sched.rs:591-772 | A table changes only by its owner's recv or reply, or another task's revoke |
| `Confinement.RevokeExact` | arch/riscv64/src/sched.rs:665-700 | A revoke leaves the revoker the only holder if and only if no copy was in flight, and touches no other capability |
| `Confinement.RevokedForGood` | arch/riscv64/src/sched.rs:685-700 | From then on no other task ever has the endpoint again, in any run in which the revoker does not grant it |
| `Control.PickAdvances` | arch/riscv64/src/sched.rs:58-70 | A Ready task is passed over only for one strictly nearer in the round |
| `Control.PanicExact` | arch/riscv64/src/sched.rs:480-565 | With one thread of control the successor asserts never fire; a step panics exactly when misconfigured |
| `Control.OneThreadStep` | arch/riscv64/src/sched.rs:237-577 | A step keeps one thread of control if and only if the running task does not relaunch itself |
| `Control.OneThreadRun` | arch/riscv64/src/sched.rs:237-577 | One thread of control in every state of such a run |
| `Control.StepAdvances` | arch/riscv64/src/sched.rs:58-70 | Every dispatch that is no hand-off brings a waiting Ready task closer |
| `Control.WaitingBound` | arch/riscv64/src/sched.rs:58-70 | Distance plus dispatches is bounded by one round per hand-off |
| `Control.BoundedWaiting` | arch/riscv64/src/sched.rs:58-70 | A task that stays Ready sees at most MAX_TASKS - 2 dispatches of others, plus a round per hand-off |
| `Control.HandOffBound` | arch/riscv64/src/sched.rs:426-484 | A whole run has at most MAX_TASKS * (MAX_RESTARTS + 1) hand-offs to the healer |
| `Control.NoStarvation` | arch/riscv64/src/sched.rs:58-70 | So the wait of a Ready task is bounded in every run, however the healer is woken |
| `Control.RestartCage` | arch/riscv64/src/sched.rs:1009-1053 | Whatever the healer does, a task is restarted at most MAX_RESTARTS times and its launches have consecutive generations |
| `Control.LaunchReceives` | arch/riscv64/src/sched.rs:334-345 | Whatever step dispatches a launched task, it finds its generation in a0 |
| `Witnesses.CopiedReply` | arch/riscv64/src/sched.rs:720-772 | A run from boot to a state in which granting a Reply capability breaks the matching |
| `Witnesses.RestartedCaller` | arch/riscv64/src/sched.rs:1009-1053 | A run from boot to a state in which restarting a waiting caller breaks the matching |
| `Witnesses.RevokedTooEarly` | arch/riscv64/src/sched.rs:665-678 | A run from boot in which a revoke clears every other table and the next dispatch step installs the endpoint again |
| `Witnesses.LostMessage` | arch/riscv64/src/sched.rs:1009-1053 | A run from boot to a state in which a restart loses a delivered message |
| `Witnesses.SelfRelaunched` | arch/riscv64/src/sched.rs:1044-1048 | The boot state of a task that may restart itself, in which doing so ends the one thread of control |
| `Scheduler.Scheduler.PickNext` | arch/riscv64/src/sched.rs:58-70 | The round-robin scan over the array is the specification's successor |
| `Scheduler.Scheduler.FindBlocked` | arch/riscv64/src/sched.rs:540-545 | The first task blocked on an endpoint in a role |
| `Scheduler.Scheduler.SwitchAway` | arch/riscv64/src/sched.rs:553-577 | Parking, picking and dispatching in place is the specification's switch; false where the assert fires |
| `Scheduler.Scheduler.FinishRecv` | arch/riscv64/src/sched.rs:630-647 | The second half of a blocked recv installs the minted and the delegated capability |
| `Scheduler.Scheduler.MintReplyCap` | arch/riscv64/src/sched.rs:654-658 | A slot outside the table mints nothing |
| `Scheduler.Scheduler.InstallCap` | arch/riscv64/src/sched.rs:706-710 | A slot outside the table drops the capability |
| `Scheduler.Scheduler.YieldNow` | arch/riscv64/src/sched.rs:237-283 | The array after the call is the specification's step |
| `Scheduler.Scheduler.ExitCurrent` | arch/riscv64/src/sched.rs:408-502 | The same for exit |
| `Scheduler.Scheduler.CrashCurrent` | arch/riscv64/src/sched.rs:408-502 | The same for a crash, with or without quarantine, whose step `Chronic.HealerTold` determines |
| `Scheduler.Scheduler.IpcSend` | arch/riscv64/src/sched.rs:854-898 | The same for send, whose step `Switching.OtherIs` and `Switching.LeaverIs` determine |
| `Scheduler.Scheduler.IpcRecv` | arch/riscv64/src/sched.rs:591-649 | The same for recv, whose step `Receiving.RecvTakes` and `Switching.RunnerIs` determine |
| `Scheduler.Scheduler.IpcCall` | arch/riscv64/src/sched.rs:913-965 | The same for call |
| `Scheduler.Scheduler.IpcReply` | arch/riscv64/src/sched.rs:972-999 | The same for reply |
| `Scheduler.Scheduler.IpcGrant` | arch/riscv64/src/sched.rs:720-772 | The same for grant |
| `Scheduler.Scheduler.RevokeInCaps` | arch/riscv64/src/cap.rs:62-71 | The loop clears exactly the slots that hold the endpoint and counts them |
| `Scheduler.Scheduler.RevokeEndpoint` | arch/riscv64/src/sched.rs:665-678 | All tables but one are cleared and the total is counted |
| `Scheduler.Scheduler.IpcRevoke` | arch/riscv64/src/sched.rs:685-700 | The same as the revoke step |
| `Scheduler.Scheduler.Restart` | arch/riscv64/src/sched.rs:1009-1053 | The same as the restart step |
| `Scheduler.Scheduler.WaitIrq` | arch/riscv64/src/sched.rs:1165-1185 | The same as the wait step |
| `Scheduler.Scheduler.WakeIrq` | arch/riscv64/src/sched.rs:1147-1157 | The same as the wake step |
| `Frames.BitmapAllocator.Init` | arch/riscv64/src/mem/frame.rs:47-56 | Accepted exactly for a non-empty aligned range that fits; the counts are right exactly when the bitmap holds no bit |
| `Frames.BitmapAllocator.Alloc` | arch/riscv64/src/mem/frame.rs:61-71 | The lowest free frame is added to the allocated set, None exactly when full; free plus allocated stays count |
| `Frames.BitmapAllocator.Free` | arch/riscv64/src/mem/frame.rs:76-89 | Accepted exactly for an allocated frame, which is removed; a refusal changes nothing |
| `Frames.NoDoubleHandout` | arch/riscv64/src/mem/frame.rs:61-89 | In every history no frame is handed out twice without being given back in between |
| `Frames.MarkOne` | arch/riscv64/src/mem/frame.rs:61-89 | Setting or clearing one bit of one word adds or removes one frame |
| `Paging.PteRoundTrip` | arch/riscv64/src/mem/paging.rs:40-48 | An entry holds its flags and V in its low ten bits and the page number above them, and gives back its address if and only if that is a page of the 56-bit space |
| `Paging.SatpRoundTrip` | arch/riscv64/src/mem/paging.rs:29-31 | The register value holds mode 8 and the root's page number |
| `Paging.SamePage` | arch/riscv64/src/mem/paging.rs:34-36 | Two addresses below 2^39 share all three indices if and only if they lie on one page |
| `Paging.PageOfIndices` | arch/riscv64/src/mem/paging.rs:34-36 | The three indices are the digits of the page number in base 512, the root's first |
| `Paging.WalkIsEntry` | arch/riscv64/src/mem/paging.rs:75-99 | In a forest of tables the hardware walk reads exactly one leaf entry |
| `Paging.BottomUnique` | arch/riscv64/src/mem/paging.rs:75-99 | A last-level table is on the path of one space and one pair of upper indices only |
| `Paging.LinkKeeps` | arch/riscv64/src/mem/paging.rs:82-91 | Linking a fresh zeroed table keeps the forest |
| `Paging.LinkEntries` | arch/riscv64/src/mem/paging.rs:82-91 | and changes no leaf entry of any space |
| `Paging.LeafEntries` | arch/riscv64/src/mem/paging.rs:93-98 | A leaf write changes the entry of one page of one space |
| `Paging.NewRoot` | arch/riscv64/src/mem/mod.rs:213-215 | A fresh root is an empty space and changes no other |
| `Mmu.LeafWalk` | arch/riscv64/src/mem/paging.rs:93-98 | The walk of a written leaf gives its frame with the flags, V, A, and D when writable; a fault when the permissions are not legal |
| `Mmu.LeafBits` | arch/riscv64/src/mem/paging.rs:93-98 | Bit by bit: V and A are added always, D exactly to a writable page, no other bit changes |
| `Mmu.MapPageWalks` | arch/riscv64/src/mem/paging.rs:75-99 | After a done mapping the hardware walk of the page gives pa with those flags, and the walk of every other page of every space is unchanged |
| `Mmu.Mmu.AllocZeroed` | arch/riscv64/src/mem/frame.rs:112-119 | A frame never handed out before, None exactly when none is free |
| `Mmu.Mmu.Descend` | arch/riscv64/src/mem/paging.rs:78-92 | One level down, linking a new table only where there is none |
| `Mmu.Mmu.LeafTable` | arch/riscv64/src/mem/paging.rs:78-92 | The path to the leaf is made whole, no other table is made, and exactly the missing ones are taken from the free frames; None exactly with fewer free frames than missing tables |
| `Mmu.Mmu.MapPage` | arch/riscv64/src/mem/paging.rs:75-99 | For every address, taken modulo 2^39: each outcome exactly: unaligned, out of frames, remap if and only if the entry is in use; done means this page's entry and no other page of any space changed; the forest is kept |
| `Mmu.VpnAlias` | arch/riscv64/src/mem/paging.rs:34-36 | An address from 2^39 up has the indices of its remainder |
| `Mmu.Mmu.MapRange` | arch/riscv64/src/mem/paging.rs:106-113 | Each outcome exactly: out of frames if and only if the free frames do not cover the tables missing on the paths of the range, or of its part before the first page in use; remap if and only if they do and a page is in use; done means exactly the pages from start up to end are mapped to themselves |
| `Mmu.RunsOutUnused` | arch/riscv64/src/mem/paging.rs:106-113 | For an unused range that is: free frames fewer than the missing tables |
| `Gaps.NeededStep` | arch/riscv64/src/mem/paging.rs:78-92 | The tables a range lacks are those its first page lacks and those the rest lacks once that page is mapped |
| `Gaps.DescendedMakes` | arch/riscv64/src/mem/paging.rs:78-92 | Descending two levels along an address makes the tables on its path and no others |
| `Spaces.SoundMore` | arch/riscv64/src/mem/paging.rs:94-96 | Mapping one more region succeeds exactly when it starts on a page and overlaps nothing mapped |
| `Spaces.SpaceWalk` | arch/riscv64/src/mem/paging.rs:106-113 | Each page of a region translates to itself with that region's R, W, X, U and G, every other page faults |
| `Spaces.AddressSpaces.MapKernelSections` | arch/riscv64/src/mem/mod.rs:114-140 | The space then holds exactly the kernel's regions; no other space changes |
| `Spaces.AddressSpaces.Init` | arch/riscv64/src/mem/mod.rs:156-187 | The allocator manages the free memory and the one space is the kernel plus free memory |
| `Spaces.AddressSpaces.BuildUserSpace` | arch/riscv64/src/mem/mod.rs:208-223 | A new space of exactly the kernel, user text, stack and device; success means they do not overlap, a remap or an unaligned page means they do or start off a page |
| `Spaces.AddressSpaces.BuildVirtioSpace` | arch/riscv64/src/mem/mod.rs:233-253 | The same with registers and DMA page |
| `Spaces.AddressSpaces.AllocFrame` | kernel/src/main.rs:202-210 | A DMA frame is allocated and never becomes a page table |
| `Spaces.AddressSpaces.TablesFenced` | arch/riscv64/src/mem/frame.rs:61-71 | Page tables lie in the allocator's memory, apart from frames handed out for other uses |
| `Spaces.AddressSpaces.FencedMore` | arch/riscv64/src/mem/mod.rs:208-253 | A new space with private user regions, and the frames handed out for it, leave the user regions of every space outside the page tables |
| `Rights.KindRights` | arch/riscv64/src/mem/mod.rs:114-253 | In a space of each kind a page is writable exactly if it is kernel data, a kernel stack, UART or PLIC, the component's stack, registers or DMA, or free memory in the master table; executable exactly if it is kernel text or, in a component's space, user text; readable exactly if it is any of these or read-only data or device; open to user mode exactly if it is user text or the component's own; global exactly if it is not; never writable and executable; every other page faults |
| `Rights.SameKernelEverywhere` | arch/riscv64/src/mem/mod.rs:114-140 | Every kernel page translates alike in any two spaces |
| `Rights.NoTableInReach` | arch/riscv64/src/mem/mod.rs:208-253 | No page open to user mode in any space is a page table of any space |
| `Rights.EverySpace` | arch/riscv64/src/mem/mod.rs:114-253 | All of that for every page of every space the kernel has built, by the hardware walk, and no page open to user mode is a page table of any space |
| `Volume.SuperblockRoundTrip` | libs/common/src/fs.rs:39-66 | Decoding gives the encoded superblock back exactly when magic and version are the format's |
| `Volume.EntryRoundTrip` | libs/common/src/fs.rs:88-101 | Decoding gives the encoded directory entry back |
| `Volume.SuperblockLayout` | libs/common/src/fs.rs:38-47 | The six words at their offsets, least significant byte first, the magic being 6BFS |
| `Volume.EntryLayout` | libs/common/src/fs.rs:88-92 | The name in 48 bytes, then the first block and the length |
| `Volume.NameMatches` | libs/common/src/fs.rs:79-117 | An entry for a NUL-free name of at most 48 bytes answers to that name and no other |
| `Volume.NameExact` | libs/common/src/fs.rs:79-117 | An entry answers to the name it was made for if and only if that name has at most 48 bytes and no NUL |
| `Volume.LongNameMissed` | libs/common/src/fs.rs:79-117 | A longer name is cut and a lookup of it misses |
| `Volume.BlockCountExact` | libs/common/src/fs.rs:121-123 | The sum overflows exactly above 2^32 - 512, and the count is rounded up exactly below; where it overflows a build with overflow checks stops, and one without gets 0 |
| `Volume.Lookup` | libs/common/src/fs.rs:137-150 | The loop finds the first entry that answers to the name |
| `Volume.LookupIs` | libs/common/src/fs.rs:137-150 | In a directory of distinct names each name finds its own entry and other names none |
| `Volume.ExtentsOrdered` | libs/common/src/fs.rs:172-192 | Extents do not overlap |
| `Volume.ReadFileIs` | libs/common/src/fs.rs:49-150 | Superblock, lookup and extent read give each file of a volume its contents and nothing for other names |
| `Append.PlanIs` | libs/common/src/fs.rs:172-192 | On a volume the plan puts the extent at its end and the entry in the next slot |
| `Append.DataWrite` | kernel/src/main.rs:1916-1930 | The data is in place, the rest of its block is zero, and the volume is as before |
| `Append.DirWrite` | kernel/src/main.rs:1962-1964 | After the directory write the volume is still the old one |
| `Append.Commit` | kernel/src/main.rs:1965-1971 | The superblock write makes it the new one |
| `Append.AppendSafe` | kernel/src/main.rs:1939-1972 | An append stopped after any number of writes leaves the old volume or, after all three, the new one |
| `Append.CrashConsistent` | kernel/src/main.rs:1939-1972 | From any volume, after any appends each stopped anywhere, the disk holds exactly the original and the committed files |
| `Append.ReadsAfterCrashes` | kernel/src/main.rs:1939-1972 | and a read by name returns exactly those |
| `Append.InPlace` | kernel/src/main.rs:2119-2136 | Overwriting bytes inside one file changes that file and no other |
| `Mkfs.BuildImage` | tools/mkfs/src/lib.rs:12-49 | Refused exactly above eight files; otherwise the image is a volume of exactly the given files, with eight spare blocks |
| `Mkfs.PlanEntries` | tools/mkfs/src/lib.rs:14-22 | The running counters give each file the block after the one before it |
| `Mkfs.WriteEntries` | tools/mkfs/src/lib.rs:39-43 | Every directory entry is in place and the superblock intact |
| `Mkfs.WriteData` | tools/mkfs/src/lib.rs:44-47 | Every extent holds its file and nothing written before is disturbed |
| `BlockCache.BadgeExact` | kernel/src/main.rs:1525-1533 | The server reads a request as meant if and only if the block number is below 2^31 |
| `BlockCache.ReadTakenAsWrite` | kernel/src/main.rs:1525-1533 | A read past that overwrites another block |
| `BlockCache.FileSystem.ReadBlock` | kernel/src/main.rs:1893-1910 | A successful read is the disk's current block and changes no disk; without device faults it fails only outside the device |
| `BlockCache.FileSystem.WriteBlockTo` | kernel/src/main.rs:1916-1930 | The block is replaced whole or, on failure only, perhaps not; the cache never goes stale |
| `BlockCache.FileSystem.AppendFile` | kernel/src/main.rs:1939-1972 | The disk is that of the first k writes of the append, k = 3 on success; without faults it succeeds exactly when planned and in the device |
| `BlockCache.FileSystem.ReadExtentHead` | kernel/src/main.rs:1985-2001 | The head the disk holds, through the buffer; without device faults None exactly when a block is outside the device |
| `BlockCache.ExtentHeadIs` | kernel/src/main.rs:1985-2001 | That head is the first min(byte_len, 1024) bytes of the extent, exactly while the block count does not overflow |
| `Utf8.ValidJoin` | libs/common/src/kb.rs:36 | Behind valid text, the whole is valid UTF-8 if and only if the rest is |
| `Utf8.CutValid` | libs/common/src/kb.rs:36 | Valid text cut at a byte is valid if and only if the byte is a character boundary |
| `Utf8.EncodedIsChar` | libs/common/src/kb.rs:36 | The bytes of every Unicode scalar value are one character |
| `Utf8.CharIsEncoded` | libs/common/src/kb.rs:36 | and every character is the bytes of one scalar value: no overlong form, no surrogate |
| `Utf8.BlankExact` | libs/common/src/kb.rs:27-29 | What is trimmed is exactly what Unicode calls white space |
| `Kb.Parse` | libs/common/src/kb.rs:35-72 | The line loop computes the specified parse, None on text that is not UTF-8 |
| `Kb.TrimValid` | libs/common/src/kb.rs:27-29 | Trimming, Unicode blanks included, removes whole characters |
| `Kb.TrimIs` | libs/common/src/kb.rs:27-29 | Any blanks around a value are trimmed, and nothing else |
| `Kb.CleanIs` | libs/common/src/kb.rs:26-30 | A value in quotes is read without them and without any blanks inside and outside them; quotes of its own are kept |
| `Kb.OpensWithFence` | libs/common/src/kb.rs:38-40 | A text that does not open with a fence is no entry |
| `Kb.FenceIs` | libs/common/src/kb.rs:38-51 | Three dashes with any blanks around them are a fence |
| `Kb.KeyIs` | libs/common/src/kb.rs:59-68 | A key with any blanks around it assigns the value behind its first colon |
| `Kb.ItemIs` | libs/common/src/kb.rs:53-58 | The first list item under the playbook key, however indented, is the playbook |
| `Kb.PlaybookStays` | libs/common/src/kb.rs:53-58 | and no later line replaces it |
| `Kb.NumberIs` | libs/common/src/kb.rs:64 | A number may have a plus in front and must fit 32 bits |
| `Kb.ParsedValid` | libs/common/src/kb.rs:35-72 | The strings of a parsed record are valid text |
| `Kb.CleanQuoted` | libs/common/src/kb.rs:26-30 | Quotes protect any single-line value without a blank, ASCII or Unicode, at its ends |
| `Kb.DocParses` | libs/common/src/kb.rs:35-101 | A printed document parses to the strings, count and flag it was made from if what follows it is valid text, and to None otherwise |
| `Kb.DocValid` | libs/common/src/kb.rs:80-101 | A document of valid strings is valid text if and only if what follows it is |
| `Kb.DigitsValue` | libs/common/src/kb.rs:112-128 | Fixed-width digits stand for their number |
| `KbFields.Serialize` | libs/common/src/kb.rs:80-101 | The document is written at the start of the buffer, None exactly when it does not fit, the bytes behind it untouched |
| `KbFields.PrintsDoc` | libs/common/src/kb.rs:80-101 | What is written is the document with both fields zero |
| `KbFields.SetUintField` | libs/common/src/kb.rs:112-128 | The digits of the first match are overwritten with the capped value; a refusal changes nothing |
| `KbFields.SetSeenInDoc` | libs/common/src/kb.rs:131-133 | Only the five digits of the counter change |
| `KbFields.SetEscalatedInDoc` | libs/common/src/kb.rs:136-138 | Only the one digit of the flag changes |
| `KbFields.SeenFieldExact` | libs/common/src/kb.rs:112-133 | The counter update works for every value if and only if id, title and token do not contain its key |
| `KbFields.FlagFieldExact` | libs/common/src/kb.rs:112-138 | The same for the flag and its key |
| `KbFields.UpdatesKeepDoc` | libs/common/src/kb.rs:112-138 | Any updates of a printed document succeed and leave it with the last count and flag |
| `KbFields.RoundTrip` | libs/common/src/kb.rs:35-138 | A serialized entry, after any updates in place, parses to its four strings with the last count, capped, and flag, if and only if what follows it is valid text |
| `KbBlock.SetFieldIff` | libs/common/src/kb.rs:112-128 | In any text a field is overwritten, by the capped value, if and only if its first key is followed by enough digits |
| `KbBlock.SetBothIs` | kernel/src/main.rs:2126-2128 | Both updates of any block succeed if and only if it has both fields, and then set exactly them |
| `KbBlock.WithFieldsIs` | libs/common/src/kb.rs:112-138 | Setting the fields keeps their places, gives them those values and changes no other byte |
| `KbBlock.ValidSame` | libs/common/src/kb.rs:112-138 | Overwriting digits by digits makes no valid text invalid, nor the reverse |
| `KbEntry.LaidParses` | libs/common/src/kb.rs:35-72 | Any frontmatter whose field lines are the last to assign to their keys parses to their count and flag, whatever the other lines and their order; nothing else of the record, nor whether there is one, depends on them |
| `KbEntry.LaterLineWins` | libs/common/src/kb.rs:52-70 | Where a later frontmatter line assigns the counter again, that line's count is parsed whatever was persisted |
| `KbEntry.EntryUpdates` | libs/common/src/kb.rs:112-138 | Updating such a text gives the same text with the new count, capped, and flag |
| `KbInstances.BodyTrackable` | libs/common/src/kb.rs:80-101 | What serialize prints reads as such an entry whatever stands behind it |
| `KbInstances.BodyLoaded` | tools/mkfs/src/main.rs:27-36 | With a valid body it is packed into the image, and it is loaded if and only if the end of its head is a character boundary |
| `KbInstances.StraddlingLost` | kernel/src/main.rs:1985-2001 | Every printed entry with a dash over byte 1024 of its file is packed, parses as a whole, and is never loaded |
| `KbInstances.OneStraddles` | kernel/src/main.rs:1985-2001 | There is such a file |
| `KbInstances.PrintedRecorded` | libs/common/src/kb.rs:80-101 | What serialize prints is an entry the system tracks, with exactly its record |
| `KbInstances.AppendsEntry` | kernel/src/main.rs:2108-2116 | Appending such an entry to a volume of entries makes it one longer |
| `KbInstances.KeyedTrackable` | libs/common/src/kb.rs:49-71 | Any lines of keys and values that name an id, a title and a token, with the fields behind them in the first block, read as an entry as soon as the rest of the head names a playbook and assigns to neither field |
| `KbInstances.LastDecides` | libs/common/src/kb.rs:59-68 | Of several lines with one key the last decides |
| `KbInstances.Kb0005Tracked` | knowledge-base/entries/KB-0005.md:1-21 | The entry that ships, of any length, has both fields in its first block; if the rest of its head names a playbook and assigns to neither field it reads as an entry, and as valid text it is tracked if and only if its head ends with a character |
| `Heal.FromStr` | arch/riscv64/src/heal.rs:41-49 | The loop backs up to the last character boundary that fits |
| `Heal.CutLongest` | arch/riscv64/src/heal.rs:41-54 | Of valid text the buffer holds the longest valid prefix that fits |
| `Heal.KnowledgeTable.Install` | arch/riscv64/src/heal.rs:133-146 | Appended, its strings cut to their buffers, or refused at eight entries |
| `Heal.TokenIs` | arch/riscv64/src/heal.rs:268-276 | The three page faults have the one token, an illegal instruction the other, nothing else any |
| `Heal.Diagnose` | arch/riscv64/src/heal.rs:268-292 | The first entry whose token is the crash's, none only if there is none |
| `Heal.MatchFrom` | arch/riscv64/src/heal.rs:280-283 | The first entry with the crash's token, none only if there is none |
| `Heal.KnowledgeTable.NoteDiagnosis` | arch/riscv64/src/heal.rs:169-191 | The first entry with the id is counted and made dirty; a report if and only if this one escalates it |
| `Heal.KnowledgeTable.DirtyEntry` | arch/riscv64/src/heal.rs:197-211 | The first dirty entry with a block is returned and everything up to it cleaned; None, and everything clean, when there is none |
| `Heal.IndexIs` | arch/riscv64/src/heal.rs:178-188 | With distinct ids the entry counted is the one diagnosed |
| `Memory.EntriesKept` | arch/riscv64/src/heal.rs:169-211 | No event of a boot changes an id, a token or a block, so a cause is diagnosed to the same entry throughout |
| `Memory.NothingLost` | kernel/src/main.rs:2119-2136 | However crashes interleave with the writer, a clean entry is on the disk or on its way |
| `Memory.OneBoot` | arch/riscv64/src/heal.rs:169-191 | Within a boot of a table with distinct ids the count grows by the crashes diagnosed to the entry and the escalation is reported once, when the threshold is reached |
| `Memory.DrainedBoot` | kernel/src/main.rs:2119-2136 | The fields a drained boot has written say the count, capped, and the flag |
| `Reboots.BootLoaded` | kernel/src/main.rs:2008-2058 | A boot of a volume of tracked entries with distinct ids, and of any files that are never loaded, starts with a clean table that says what the entries' fields on disk say |
| `Reboots.DiskTracks` | kernel/src/main.rs:2119-2136 | At every moment of a boot the bytes on disk are a volume of the same files, with the fields the writes have set |
| `Reboots.AcrossBoots` | kernel/src/main.rs:2119-2136 | Over any sequence of drained boots, each loading the bytes the last one left, the disk is a volume of the same files whose tracked entries' fields say the total of diagnoses, capped, and the flag |
| `Reboots.ReportedOnce` | arch/riscv64/src/heal.rs:169-191 | Over those boots the escalation was reported exactly once if it was reached, and never otherwise |
| `Reboots.ReadsTotals` | libs/common/src/kb.rs:35-72 | A read of the entry's file by name then parses to its record with the capped total and the flag |
| `Reboots.UnreadKept` | kernel/src/main.rs:2119-2136 | and a file that is never loaded reads as it did at the start |
| `Memory.QuarantineExact` | arch/riscv64/src/sched.rs:426-452 | A crash is quarantined if and only if it is at least the sixth of its entry, earlier boots counted, or the disk says so |
| `Chronic.QuarantineSilences` | arch/riscv64/src/sched.rs:458-477 | A quarantined crash leaves every waiting healer as it was and sends nothing |
| `Chronic.HealerTold` | arch/riscv64/src/sched.rs:458-484 | A crash is reported if and only if its task is restartable and it is not quarantined: the first healer waiting runs next with the task's crash badge in its registers; every other, and that one otherwise, is left as it was |
| `Chronic.ChronicNeverNotifies` | arch/riscv64/src/sched.rs:426-477 | So no crash diagnosed to a chronic entry notifies the healer |
| `Chronic.ChronicAcrossBoots` | arch/riscv64/src/sched.rs:426-484 | After any drained boots a crash of the next one is quarantined if and only if it is at least the sixth of its entry over all boots, or the entry was chronic from the start; then no healer hears of it, and before that the first healer waiting hears of every crash of a restartable task |
| `KbWriter.PersistedIs` | kernel/src/main.rs:2119-2136 | Persisting sets exactly the two fields of the entry's block, whatever its layout, and changes no other block; without both fields nothing |
| `KbWriter.Writer.PersistOne` | kernel/src/main.rs:2119-2136 | Without a device error the entry is persisted; with one the disk is that or the old one |
| `KbWriter.Writer.PersistDirty` | kernel/src/main.rs:2119-2136 | The loop ends with no dirty entry and, without device errors, with every dirty entry that has a block persisted in turn |
| `KbWriter.LoopIsRun` | kernel/src/main.rs:2119-2136 | That is a run of takes and writes which ends drained |
| `Loader.Load` | kernel/src/main.rs:2008-2058 | Without device errors the table is what the disk loads, nothing from a bad superblock or directory; the disk is only read |
| `Loader.VolumeLoadable` | kernel/src/main.rs:2008-2058 | On a volume that is, file by file, every record that parses with a token and finds room, with the file's first block |
| `Loader.LoadedValid` | arch/riscv64/src/heal.rs:41-54 | Whatever is on the disk, the strings a boot loads from it are valid text, so that reading a buffer never falls back to the empty string |
| `Loader.ExtentReads` | kernel/src/main.rs:1985-2001 | Every extent of a volume lies in the device and its head is the file's |
| `KbVolume.RecordParses` | kernel/src/main.rs:2037-2044 | The head of an entry of any length, if it is valid text, parses to its record with the count and flag its fields say |
| `KbVolume.LostEntry` | kernel/src/main.rs:2037-2044 | If it is not, the entry is never loaded, whatever its fields say |
| `KbVolume.LoadedExact` | kernel/src/main.rs:1985-2044 | An otherwise trackable entry in a valid file is loaded if and only if the file ends within 1024 bytes or byte 1024 is a character boundary |
| `KbVolume.LoadsEntries` | kernel/src/main.rs:2031-2050 | A volume loads to one issue for each tracked entry, in order, with the count and flag its fields say and its first block, and to nothing else |
| `KbVolume.BlockOfFile` | kernel/src/main.rs:2119-2124 | The block the writer reads starts with the file's own first bytes |
| `KbVolume.PersistFile` | kernel/src/main.rs:2119-2136 | Persisting a file of any length sets the two fields in it and leaves the volume otherwise as it was |
| `KbVolume.PersistKeepsVolume` | kernel/src/main.rs:2119-2136 | Persisting an entry of a volume of entries gives the volume whose entry says the capped count and the flag |
| `Checksum.FoldIs` | libs/common/src/net.rs:86-88 | Folding keeps the sum modulo 65535, and only zero folds to zero |
| `Checksum.ComputeChecksum` | libs/common/src/net.rs:76-90 | The two loops in 32-bit arithmetic compute the specified checksum for up to 131074 bytes |
| `Checksum.ChecksumVerifies` | libs/common/src/net.rs:73-90 | Stored in its zeroed even field it makes the whole verify to 0 |
| `Checksum.ChecksumIs` | libs/common/src/net.rs:73-90 | For any bytes its complement is, modulo 65535, the sum of the bytes with weight 256 at even and 1 at odd places, and 0 only for zero bytes; a zero byte behind an odd number changes nothing |
| `Frame.HeaderIs` | libs/common/src/net.rs:94-117 | A built header verifies to 0 and holds version, length, identifier, TTL, protocol and addresses, and zeros elsewhere |
| `Frame.UdpRoundTrip` | libs/common/src/net.rs:129-184 | A built datagram, however padded, gives None to other ports and its payload to its own port if and only if the length fits 16 bits |
| `Frame.UdpHeaderIs` | libs/common/src/net.rs:150-153 | Ports, length and a zero checksum stand in their places |
| `Frame.UdpExact` | libs/common/src/net.rs:160-184 | Any frame gives a payload to a port exactly when its bytes say IPv4, UDP, that port and a length it holds, and then that payload |
| `Frame.EchoIs` | libs/common/src/net.rs:353-382 | A built echo message verifies to 0 and keeps its fields |
| `Frame.EchoAccepted` | libs/common/src/net.rs:386-425 | An echo frame is taken as a reply only for its identifier and sequence number, and as a request only for its destination |
| `Frame.EchoExact` | libs/common/src/net.rs:386-425 | Any frame is taken for an echo reply, or for a request to an address, exactly when its bytes say so |
| `Frame.ReplyToRequest` | libs/common/src/net.rs:431-465 | The reply to a built request has both address pairs swapped and the same identifier, sequence and payload |
| `Frame.AnsweredExact` | libs/common/src/net.rs:427-444 | A frame is answered if and only if it carries an ICMP message; the comment's None for what is no echo request is met exactly by requests and refused frames |
| `Frame.AnyTypeAnswered` | libs/common/src/net.rs:427-444 | For every type byte there is a frame that is answered, against the comment for all but 8 |
| `Frame.ReplyIs` | libs/common/src/net.rs:427-465 | The reply to any answered frame, options included: both checksums verify, addresses are swapped, the message keeps all behind its checksum, its code exactly if that was 0, and it is accepted for exactly the frame's identifier and sequence |
| `FrameBuilder.BuildHeader` | libs/common/src/net.rs:94-117 | The 20 bytes in the buffer are the header, the rest is untouched |
| `FrameBuilder.BuildUdp` | libs/common/src/net.rs:129-156 | The buffer starts with the frame, the rest is untouched |
| `FrameBuilder.BuildEchoRequest` | libs/common/src/net.rs:353-382 | The same for an echo request |
| `FrameBuilder.BuildEchoReply` | libs/common/src/net.rs:431-465 | The reply in the buffer; refused exactly when length, EtherType, protocol and header length do not say ICMP |
| `Dhcp.FindOption` | libs/common/src/net.rs:315-337 | The loop computes the specified walk on every byte string, within bounds |
| `Dhcp.WalkIs` | libs/common/src/net.rs:315-337 | On every option list with any padding the walk gives the first value with the code |
| `Dhcp.ReplyIs` | libs/common/src/net.rs:277-311 | For any fixed area, cookie and option list, an OFFER or ACK is recognised if and only if the op is 2, the id and the magic cookie agree and the first message-type option says so; it gives the address and first server option it carries |
| `Dhcp.ShortRefused` | libs/common/src/net.rs:305-307 | Less than 240 bytes is no reply |
| `Dhcp.Be32Is` | libs/common/src/net.rs:253 | The id on the wire is most significant byte first |
| `Dhcp.BuildRequest` | libs/common/src/net.rs:240-273 | The zeroed buffer with its fields written is the request payload; the bytes behind it are untouched |
| `Dhcp.RequestReads` | libs/common/src/net.rs:240-273 | A built REQUEST carries op, hardware type, id, client address and broadcast flag with zeros between, its options read back as type 3, the requested address and the server, and no client takes it for a reply |
| `Dns.SkipNameLoop` | libs/common/src/net.rs:537-548 | The loop ends on every byte string, within bounds, and computes the specified skip |
| `Dns.SkipIs` | libs/common/src/net.rs:537-548 | Labels of 1 to 191 bytes, ended by the root or a pointer, are skipped to their end |
| `Dns.ParseResponseLoop` | libs/common/src/net.rs:496-529 | The loops compute the specified parse on every byte string |
| `Dns.ResponseIs` | libs/common/src/net.rs:496-529 | On every well-formed response with the right id the result is the first record of type 1 with four data bytes, or None |

## Left out

- `recv_message` and `call_message`: they run in kernel tasks with interrupts on, outside the atomicity the IPC invariants rest on; the file-system model replaces them by a block device.
- Assembly, CSRs, SBI, trap entry and the trampolines: a context switch is "the picked task's continuation runs next"; of the register layout of `forge_user_context` only a0 is modelled.
- Kernel tasks other than idle are modelled as tasks that yield; the `seal`, `open` and `getrandom` calls change only buffers and registers.
- Virtio drivers, PLIC, UART, timer, console and the demo tasks: device behaviour is a parameter.
- `libs/crypto`, `channel.rs`, `entropy.rs` and `dt.rs`: cryptography and device-tree parsing.
- The single-slot mailbox for novel tokens and the minting of new ids in the writer: the boots of `Reboots` have a fixed set of entries, and `KbInstances.AppendsEntry` says what one more does to the volume.
- The shell, system-call decoding and the user-buffer check.
- `fs_read_block` returns a view of the DMA page that the next request overwrites; the model returns the bytes.
- `build_query`, `build_discover` and the ARP builder and parser.
- Mmu.Mmu.MapPage: physical addresses are below 2^56, the space an entry can hold.
- Mmu.Mmu.MapRange: ranges end at 2^39 or below; past that the pages wrap round, as `Mmu.Mmu.MapPage` says of each.
- Spaces.AddressSpaces.MapKernelSections: regions end at 2^39 or below, for the same reason.
- Spaces.AddressSpaces.BuildUserSpace: regions end at 2^39 or below, for the same reason.
- Spaces.AddressSpaces.BuildVirtioSpace: regions end at 2^39 or below, for the same reason.
- Spaces.AddressSpaces.Init: free memory and regions end at 2^39 or below, for the same reason.
- Mkfs.BuildImage: images have fewer than 2^31 blocks, the largest number a request can name.
- BlockCache.FileSystem.ReadBlock: block numbers are below 2^31; `BlockCache.BadgeExact` and `BlockCache.ReadTakenAsWrite` say what happens above.
- BlockCache.FileSystem.WriteBlockTo: block numbers are below 2^31, for the same reason.
- BlockCache.FileSystem.AppendFile: the superblock names blocks below 2^31, for the same reason.
- BlockCache.FileSystem.ReadExtentHead: the head lies below block 2^31, for the same reason.
- Loader.Load: the directory names blocks below 2^31, for the same reason.
- Checksum.ComputeChecksum: inputs above 131074 bytes, where the 32-bit sum could overflow, are outside its contract.
- Reboots.AcrossBoots: each boot's writer is drained without device errors, since a failed write is not retried until the next diagnosis; a file that is loaded has both field lines at the start of a line of the frontmatter, the last there to assign to their key, and both in its first block.
