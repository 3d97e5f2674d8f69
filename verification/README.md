# USB mass storage device: a verified model

A Dafny model of the device side of USB mass storage as `usbd-storage` implements it: the Bulk-Only
Transport with its sliding IO buffer, the SCSI dispatch loop on top, and the block storage handlers of the
two example firmwares. `dafny verify dfyconfig.toml` checks everything.

## How it is built

The transport exists twice.

* `Transport.dfy` is the transport on values. A `Machine` holds the state, the current wrapper, the status,
  the counter, the buffered bytes and what the endpoints will answer next. `Poll` is flat: one case per
  state, no recursion. The endpoints are arbitrary: any packet, any error, any number of bytes taken.
* `BulkOnly.dfy` is the transport as it runs: a class whose handlers update its fields and call each other,
  with its data in the array of `Buffer.dfy`. Every method is proved to do what the flat machine does. The
  handlers form a cycle; their `decreases` clauses show that one poll cannot go round twice.

`Ledger.dfy` keeps the account of a run: per command, the bytes accepted from the user, delivered to the
user, taken from the host and sent to the host, and the verdict. Nothing in the transport reads it.
`Invariant.dfy` ties state, status, counter, buffer and ledger together and shows that every poll and every
call keeps them together. The rest are consequences over whole runs:

* `Runs.dfy`, `Conservation.dfy`: the wire format, and that no byte is lost, reordered or invented.
* `Completion.dfy`, `Framing.dfy`, `Reassembly.dfy`: exact numbers of polls, packet sizes, wrapper pieces.
* `Acceptance.dfy`: which packets start a command, against what the specification says.
* `Recovery.dfy`: an invalid wrapper is terminal, and a reset gives a transport as good as new.
* `Dispatch.dfy`: no callback can trip the transport.
* `Storage.dfy`, `Blocks.dfy`, `Liveness.dfy`: the device is an array of blocks, what was written is what is
  read, a Read passes exactly when its transfer length covers its blocks, and a Write exactly when the host
  has sent the bytes of its blocks.
* `Hosts.dfy`: what a host can make of one Write, in some run and in all of them.
* `ClassResets.dfy`: what a reset of the transport alone does to the next Write or Read.
* `Staging.dfy`, `StagedRuns.dfy`: storage in flash, staged block by block, against the direct device.
* `Overruns.dfy`, `FlashResets.dfy`: the same device with a host that sends too much, and after such a reset.
* `Firmware.dfy`, `FlashFirmware.dfy`: the handlers in place, in memory and by flash block.

## What the code does not keep

* The check in `new` admits buffers too small to take a command. A 31-byte buffer with 8- or 16-byte packets
  never takes a wrapper sent in full packets. `Reassembly.ReassemblyExactly` gives the exact bound for every
  way to cut a wrapper, `Reassembly.FullPacketsExactly` and `Reassembly.SinglesExactly` two instances, and
  `Reassembly.NewAdmitsDeafDevices` the failing configurations. A packet size of 0 passes as well, and such a
  device refuses every byte (`Reassembly.ZeroPacketsAreDeaf`).
* The documentation of `set_status` says that all further writes fail. They do not until the next poll:
  `Conservation.StatusAloneClosesNothing` says exactly which succeed and `Acceptance.WritesAfterStatus` gives
  a run. From that poll to the next command they do fail: `Conservation.PollCloses` and
  `Conservation.ClosedStaysClosed`.
* The Bulk-Only Transport specification has a wrapper start on a packet boundary and end with a short packet
  (section 5.1), calls it valid only at 31 bytes (section 6.2.1) and has the device stall otherwise (section
  6.6.1). The code collects bytes across packets, takes the first 31 and drops the rest
  (`Acceptance.SurplusIsDropped`). On packets of given sizes it does as the specification says if and only if
  all but the last are full and they make up 31 bytes, or all are full and make up less
  (`Acceptance.ConformsExactly`); for one packet, if and only if it has 31 bytes or is full and shorter
  (`Acceptance.OnePacketConforms`). `Acceptance.AcceptsExactly` is the condition packets by packets.
* A reset of the transport alone leaves the firmware's offset as it is. The next Write works, whatever the host
  sends, if and only if the offset was 0 (`ClassResets.ClassResetExactly`), and so does the next Read
  (`ClassResets.ClassResetReadExactly`). With an offset up to the size of the Write it is reported as passed in
  full while its bytes lie that much too far on, and the first of its blocks' bytes are not written
  (`ClassResets.StaleWriteIsMisplaced`); a Read is reported as passed in full with as many bytes missing at the
  front and padding at the end (`ClassResets.StaleReadIsCutOff`). With a larger offset every call of the handler
  panics (`ClassResets.StaleCommandIsStuck`). Offsets are left over in runs (`ClassResets.OffsetIsLeftOver`).
  With storage in flash the condition is the same (`FlashResets.FlashResetExactly`), and with a larger offset the
  Write is never answered (`FlashResets.StaleFlashWriteNeverEnds`).
* A Read whose transfer length is shorter than its blocks never gets a status from the firmware
  (`Liveness.ReadPassesExactly`). A Write gets one exactly when the host has sent the bytes of its blocks
  (`Liveness.WriteVerdictExactly`), so from a host that keeps to a shorter transfer length it never does
  (`Liveness.WriteNeedsLength`). A host can overshoot by less than a packet (`Conservation.OvershootIsBounded`),
  and some host gets a Write passed if and only if its blocks have less than a packet more than its transfer
  length (`Hosts.WritePassesExactly`, with a run in `Hosts.ShortWritePasses`).
* The Write handler for flash does not bound what it takes by the length of the Write. It keeps step with the
  direct handler if and only if the transport holds no more bytes than the Write has left
  (`Staging.KeepsStepExactly`). With more, the Write is never answered, and the block after its last one is
  programmed with the surplus once there is a block of it (`Overruns.OverrunNeverEnds`). Some host brings that
  about if and only if the Write has blocks, and fewer bytes of them than its transfer length and a packet less a
  byte (`Overruns.OverrunExactly`, with a run in `Overruns.OverrunHappens`): so every Write with packets of two
  bytes or more whose transfer length covers its blocks.

## Model

| member | source | states |
|---|---|---|
| `IoBuffer.Buffer.Shift` | usbd-storage/src/buffer.rs:90-98 | compaction leaves the queue as it was and puts all free space behind it |
| `IoBuffer.Buffer.Write` | usbd-storage/src/buffer.rs:28-38 | appends the longest prefix that fits and returns its length |
| `IoBuffer.Buffer.WriteAll` | usbd-storage/src/buffer.rs:40-61 | overflows exactly when less than the asked room is free, without calling the closure; any error leaves the queue alone; a count within the slice appends exactly those bytes |
| `IoBuffer.Buffer.Read` | usbd-storage/src/buffer.rs:63-72 | the closure sees the whole queue; the queue loses exactly the bytes it reports, none on an error |
| `IoBuffer.Buffer.FillUpTo` | usbd-storage/src/buffer.rs:74-83 | appends copies of the value, as many as asked or as fit |
| `IoBuffer.Buffer.Clear` | usbd-storage/src/buffer.rs:85-88 | the queue is empty and the whole array free |
| `Fifo.Drive` | usbd-storage/src/buffer.rs:10-99 | over every sequence of operations the buffer gives the results of a bounded queue; cursors and compaction never show |
| `Codec.ParseCbw` | usbd-storage/src/transport/bbb.rs:554-573 | accepts exactly the signature with a block length of 1 to 16, and what it accepts is well-formed |
| `Codec.CbwRoundTrip` | usbd-storage/src/transport/bbb.rs:763-798 | parsing a wrapper as a host lays it out gives it back |
| `Codec.ParseLosesOnlyReservedBits` | usbd-storage/src/transport/bbb.rs:763-798 | re-encoding a parsed wrapper gives back every byte but two: of the flags it keeps bit 7 if data is expected, of the LUN byte the low four bits, with zeros elsewhere |
| `Codec.CswRoundTrip` | usbd-storage/src/transport/bbb.rs:542-551 | the host decodes from a status wrapper the tag, residue and status put in |
| `BulkOnlyTransport.BulkOnly.New` | usbd-storage/src/transport/bbb.rs:146-171 | exactly which configurations are refused, with which error, and the fresh state of the others |
| `BulkOnlyTransport.BulkOnly.SetStatus` | usbd-storage/src/transport/bbb.rs:182-197 | in the states its assertion admits, sets status and saturated residue and keeps the invariant |
| `BulkOnlyTransport.BulkOnly.GetCommand` | usbd-storage/src/transport/bbb.rs:200-212 | a command is offered exactly outside the two command states, with a block of 1 to 16 bytes |
| `BulkOnlyTransport.BulkOnly.ReadData` | usbd-storage/src/transport/bbb.rs:224-241 | moves the front of the buffer to the front of the destination, the rest of which is unchanged; refused outside the Data-Out states |
| `BulkOnlyTransport.BulkOnly.WriteData` | usbd-storage/src/transport/bbb.rs:253-261 | does to the object what the machine's write does, keeping the invariant |
| `BulkOnlyTransport.BulkOnly.TryWriteDataAll` | usbd-storage/src/transport/bbb.rs:276-295 | does to the object what the machine's whole write does, keeping the invariant |
| `Conservation.WritesAreMaximal` | usbd-storage/src/transport/bbb.rs:253-295 | in every run a write takes the longest admissible prefix, a whole write is all or nothing with its errors in order, and the cast at line 606 is harmless |
| `BulkOnlyTransport.BulkOnly.ReadPacket` | usbd-storage/src/transport/bbb.rs:620-638 | one OUT packet through the buffer is one packet on the machine, errors included |
| `BulkOnlyTransport.BulkOnly.WritePacket` | usbd-storage/src/transport/bbb.rs:643-666 | one IN write through the buffer is one on the machine; an empty buffer sends nothing |
| `BulkOnlyTransport.BulkOnly.TryWriteFullPacket` | usbd-storage/src/transport/bbb.rs:669-675 | short of a packet it changes nothing and says so, otherwise it sends one |
| `BulkOnlyTransport.BulkOnly.BuildCsw` | usbd-storage/src/transport/bbb.rs:542-551 | the array filled in four steps is the encoded status wrapper; none without a status |
| `BulkOnlyTransport.BulkOnly.TryParseCbw` | usbd-storage/src/transport/bbb.rs:554-573 | takes exactly 31 bytes off the buffer and parses them |
| `BulkOnlyTransport.BulkOnly.HandleReadCbw` | usbd-storage/src/transport/bbb.rs:376-396 | reading a wrapper, with the handler chain behind it, is one flat step |
| `BulkOnlyTransport.BulkOnly.HandleCbwInvalid` | usbd-storage/src/transport/bbb.rs:399-407 | stalls both endpoints |
| `BulkOnlyTransport.BulkOnly.StartDataTransfer` | usbd-storage/src/transport/bbb.rs:575-596 | starting any of the three kinds of transfer, with its first handler call, is one flat step |
| `BulkOnlyTransport.BulkOnly.HandleDataTransferToHost` | usbd-storage/src/transport/bbb.rs:417-443 | equals the flat poll of that state; its assertions hold |
| `BulkOnlyTransport.BulkOnly.HandleDataTransferToHostEnding` | usbd-storage/src/transport/bbb.rs:476-500 | equals the flat poll of that state; the padding always fits |
| `BulkOnlyTransport.BulkOnly.HandleDataTransferFromHost` | usbd-storage/src/transport/bbb.rs:503-522 | equals the flat poll of that state |
| `BulkOnlyTransport.BulkOnly.HandleDataTransferFromHostEnding` | usbd-storage/src/transport/bbb.rs:524-540 | equals the flat poll of that state |
| `BulkOnlyTransport.BulkOnly.HandleDataTransferNoData` | usbd-storage/src/transport/bbb.rs:409-414 | equals the flat poll of that state |
| `BulkOnlyTransport.BulkOnly.HandleDataTransferStatusAwait` | usbd-storage/src/transport/bbb.rs:461-473 | equals the flat poll of that state |
| `BulkOnlyTransport.BulkOnly.HandleStatusTransfer` | usbd-storage/src/transport/bbb.rs:446-458 | equals the flat poll of that state; re-entering the command phase drops the status, so the handler cycle ends |
| `BulkOnlyTransport.BulkOnly.EnterStateStatusTransfer` | usbd-storage/src/transport/bbb.rs:361-373 | never panics where it is called, and leaves exactly the status wrapper in the buffer |
| `BulkOnlyTransport.BulkOnly.EnterStateCommandTransfer` | usbd-storage/src/transport/bbb.rs:302-311 | clears status, counter, stalls and buffer |
| `BulkOnlyTransport.BulkOnly.Poll` | usbd-storage/src/transport/bbb.rs:728-748 | the handlers and their cycle terminate and do what the flat machine does; the invariant is kept |
| `BulkOnlyTransport.BulkOnly.Reset` | usbd-storage/src/transport/bbb.rs:694-697 | equals the machine's reset |
| `Invariant.PollGood` | usbd-storage/src/transport/bbb.rs:376-600 | every poll keeps the invariant of state, status, counter, buffer and account, whatever the endpoints do |
| `Invariant.SetStatusGood` | usbd-storage/src/transport/bbb.rs:182-197 | setting a status keeps the invariant |
| `Invariant.WriteDataGood` | usbd-storage/src/transport/bbb.rs:253-261 | a user write keeps the invariant |
| `Invariant.TryWriteDataAllGood` | usbd-storage/src/transport/bbb.rs:276-295 | a whole user write keeps the invariant |
| `Invariant.ReadDataGood` | usbd-storage/src/transport/bbb.rs:224-241 | a user read keeps the invariant |
| `Runs.StepGood` | usbd-storage/src/transport/bbb.rs:182-749 | every event keeps the invariant, so no poll of any legal run can hit an assertion or panic |
| `Runs.WireFormat` | usbd-storage/src/transport/bbb.rs:361-500 | in every run the IN bytes since the last reset are, in the order of the accepted wrappers, the data asked for and one status wrapper with the tag, only the last frame possibly incomplete |
| `Conservation.DataInConserved` | usbd-storage/src/transport/bbb.rs:417-500 | in every run sent and buffered bytes are the user's in order, then padding, which needs a status; the counter is exact; nothing is left behind |
| `Conservation.DataOutConserved` | usbd-storage/src/transport/bbb.rs:503-540 | in every run read and buffered bytes are the host's in order, the counter is what it owes, and no status byte leaves before it has sent all |
| `Conservation.OverflowLosesNothing` | usbd-storage/src/transport/bbb.rs:620-638 | from all states, a poll answers overflow exactly when it would read on into a buffer with less than a packet free, and then it changes nothing |
| `Conservation.OvershootIsBounded` | usbd-storage/src/transport/bbb.rs:503-540 | in every run the device takes less than a packet more than the host announced |
| `Conservation.CompleteIsFaithful` | usbd-storage/src/transport/bbb.rs:542-551 | a finished command's status wrapper decodes to its tag, the last status and the saturated residue; padding is the residue of an honest user |
| `Conservation.FinishedCommandsAreComplete` | usbd-storage/src/transport/bbb.rs:446-458 | in every run all commands before the current one are finished, and the current one too once wrappers are awaited |
| `Conservation.PollIsBounded` | usbd-storage/src/transport/bbb.rs:728-748 | one poll starts at most one command and takes at most two packets or sends at most one, never both |
| `Conservation.StatusAloneClosesNothing` | usbd-storage/src/transport/bbb.rs:173-197 | against the documentation, a write of either kind right after a status is answered as without it; exactly which of them take bytes |
| `Conservation.PollCloses` | usbd-storage/src/transport/bbb.rs:417-431 | the first poll after the status closes the command to writes |
| `Conservation.ClosedStaysClosed` | usbd-storage/src/transport/bbb.rs:253-261 | and every write of either kind is refused, without effect, until another command is accepted |
| `Completion.CompletesExactly` | usbd-storage/src/transport/bbb.rs:417-540 | with a status set and a willing bus the wrapper is out after ceil(left / ps) + ceil(13 / ps) polls and not before, in every direction, and the next poll leaves the status phase |
| `Completion.RestPacketSize` | usbd-storage/src/transport/bbb.rs:476-500 | while a Data-In transfer is wound up each packet has min(left, ps) bytes |
| `Completion.AskedForMore` | usbd-storage/src/transport/bbb.rs:434-438 | FullPacketExpected is answered only with at least a packet left and less than one buffered |
| `Completion.NoStandOff` | usbd-storage/src/transport/bbb.rs:669-675 | then there is room to complete the packet, and the next willing poll sends it full, with exactly those bytes |
| `Framing.LeadingPacketsAreFull` | usbd-storage/src/transport/bbb.rs:427-442 | in every run over an endpoint that takes whole packets, each Data-In packet the data reaches to the end of is full |
| `Framing.ShortTail` | usbd-storage/src/transport/bbb.rs:434-440 | the tail goes out as one short packet if and only if it is wholly buffered or the status is set |
| `Reassembly.ReassemblyExactly` | usbd-storage/src/transport/bbb.rs:376-396 | a wrapper in any pieces and attempts is taken as in one piece if and only if the buffer holds all before the last piece plus a full packet; otherwise never |
| `Reassembly.FullPacketsExactly` | usbd-storage/src/transport/bbb.rs:156-159 | in full packets the bound is 31 rounded up to whole packets |
| `Reassembly.NewAdmitsDeafDevices` | usbd-storage/src/transport/bbb.rs:156-159 | configurations that pass the check and never take a command |
| `Reassembly.ZeroPacketsAreDeaf` | usbd-storage/src/transport/bbb.rs:156-159 | so does a packet size of 0, with which no byte is ever taken, whatever the endpoint offers in any number of polls |
| `Reassembly.AnySplitWorks` | usbd-storage/src/transport/bbb.rs:620-638 | with room for 30 bytes and a packet every split is taken |
| `Reassembly.SinglesExactly` | usbd-storage/src/transport/bbb.rs:620-638 | byte by byte that bound is also needed |
| `Acceptance.ReactsSo` | usbd-storage/src/transport/bbb.rs:376-396 | after any packets between commands the device waits short of 31 bytes, and at 31 or more starts the command of the first 31 or stalls both endpoints |
| `Acceptance.AcceptsExactly` | usbd-storage/src/transport/bbb.rs:376-396 | that is what the specification says if and only if: short of 31 bytes all packets were full; otherwise they were 31 bytes with all but the last full, or the first 31 are no wrapper |
| `Acceptance.ConformsExactly` | usbd-storage/src/transport/bbb.rs:381-388 | for all packets of given sizes at once, if and only if all but the last are full and they make up 31 bytes, or all are full and make up less |
| `Acceptance.OnePacketConforms` | usbd-storage/src/transport/bbb.rs:381-388 | for one packet of n bytes, if and only if n is 31 or the packet is full and shorter than that |
| `Acceptance.SurplusIsDropped` | usbd-storage/src/transport/bbb.rs:554-596 | packets that begin with a wrapper start its command, and the surplus is neither data nor kept |
| `Acceptance.ArrivedReachable` | usbd-storage/src/transport/bbb.rs:376-396 | this happens in runs, with every wrapper in all packets that bring it |
| `Acceptance.OnePacketCarries` | usbd-storage/src/transport/bbb.rs:376-396 | with packets of 31 bytes or more every wrapper is brought by one |
| `Acceptance.SinglesCarry` | usbd-storage/src/transport/bbb.rs:376-396 | with any packet size and 30 bytes of room besides, every wrapper is brought byte by byte |
| `Acceptance.WritesAfterStatus` | usbd-storage/src/transport/bbb.rs:173-197 | a run in which both kinds of write succeed after the status |
| `Recovery.InvalidExactly` | usbd-storage/src/transport/bbb.rs:381-393 | from all states, the invalid state is entered exactly when a wrapper is due and 31 bytes are in with a wrong signature or block length |
| `Recovery.InvalidIsTerminal` | usbd-storage/src/transport/bbb.rs:399-407 | from then on, short of a reset and however often the host clears the halt, no byte moves, no command is offered and every poll stalls both endpoints again |
| `Recovery.ResetIsAsNew` | usbd-storage/src/transport/bbb.rs:694-697 | after a reset from any reachable state no run can tell the transport from a new one |
| `Scsi.TenByteForms` | usbd-storage/src/subclass/scsi.rs:148-174 | READ(10) and WRITE(10) are read back to their address and length, whatever the reserved bytes |
| `Scsi.SixteenByteForms` | usbd-storage/src/subclass/scsi.rs:159-179 | the 16-byte forms likewise with extended addressing, and not otherwise |
| `Dispatch.OfferIsSafe` | usbd-storage/src/subclass/scsi.rs:259-273 | when the callback runs, a valid wrapper is current, its block has 1 to 16 bytes, no status is set and a verdict is legal |
| `Dispatch.OfferIsComplete` | usbd-storage/src/subclass/scsi.rs:259-261 | and it runs on every such occasion |
| `Dispatch.DrivenRunsAreLegal` | usbd-storage/src/subclass/scsi.rs:251-278 | every run driven through the subclass, with any callbacks, is a legal run of the transport |
| `Progress.PollProgress` | usbd-storage/src/transport/bbb.rs:728-748 | a poll carries the current command on or, once it is over, starts the next; it never touches what passed between device and user |
| `Storage.DecodeTenByteForms` | examples/stm32/src/bin/stm32f411x_scsi_bbb.rs:237-268 | READ(10) and WRITE(10) name the bytes from block size times address, block size times length of them |
| `Storage.HandleGood` | examples/stm32/src/bin/stm32f411x_scsi_bbb.rs:237-281 | the handlers keep the transport's invariant |
| `Storage.HandleStored` | examples/stm32/src/bin/stm32f411x_scsi_bbb.rs:237-281 | one handler call keeps storage, offset and account in step with the sequential array of blocks |
| `Storage.PollDeviceTracks` | usbd-storage/src/subclass/scsi.rs:251-278 | and so does a handler call with the poll after it |
| `Blocks.StorageIsReplay` | examples/stm32/src/bin/stm32f411x_scsi_bbb.rs:237-281 | in every run, between commands the storage is the commands since the last reset applied in order, each Write by the host's own bytes; the offset is 0 whenever a command begins |
| `Blocks.ReadSendsBlocks` | examples/stm32/src/bin/stm32f411x_scsi_bbb.rs:237-258 | a finished Read of matching length, the current one included, put exactly its blocks on the wire, passed, residue 0, no padding |
| `Blocks.ReadBack` | examples/stm32/src/bin/stm32f411x_scsi_bbb.rs:237-281 | what the host wrote is what the host reads, if nothing wrote there in between |
| `Blocks.ReadBackTenByte` | examples/stm32/src/bin/stm32f411x_scsi_bbb.rs:237-281 | the same for a WRITE(10) and a READ(10) of the same address and length |
| `ClassResets.ClassResetExactly` | examples/stm32/src/bin/stm32f411x_scsi_bbb.rs:136-141 | after a reset of the transport alone and a Write's wrapper in any packets, the Write can be handled and is stored when reported, over all runs and host bytes, if and only if the offset was 0 |
| `ClassResets.StaleWriteIsMisplaced` | examples/stm32/src/bin/stm32f411x_scsi_bbb.rs:259-278 | with an offset up to the size of the Write: in every run it passes in full, all but the last bytes of it lie too far on by the offset, and its first bytes are unwritten |
| `ClassResets.StaleCommandIsStuck` | examples/stm32/src/bin/stm32f411x_scsi_bbb.rs:242-268 | with a larger offset, for Reads and Writes: in every run each handler call would slice backwards, and there is no verdict |
| `ClassResets.StaleWriteCheats` | examples/stm32/src/bin/stm32f411x_scsi_bbb.rs:259-278 | for every such Write a run that reports it before the host has sent it all |
| `ClassResets.ClassResetReadExactly` | examples/stm32/src/bin/stm32f411x_scsi_bbb.rs:237-258 | after such a reset the next Read can be handled and hands over its blocks when reported, over all runs, if and only if the offset was 0 |
| `ClassResets.StaleReadIsCutOff` | examples/stm32/src/bin/stm32f411x_scsi_bbb.rs:237-258 | otherwise, in every run, it passes in full without its first bytes, and what the host gets is the rest, as much padding, and a status that says passed with residue 0 |
| `ClassResets.OffsetIsLeftOver` | examples/stm32/src/bin/stm32f411x_scsi_bbb.rs:237-252 | a run of a new device that leaves any given offset up to the buffer's size |
| `ClassResets.StaleOffsetLosesWrite` | examples/stm32/src/bin/stm32f411x_scsi_bbb.rs:259-278 | with an offset of just the size of the Write it passes with nothing stored |
| `ClassResets.ClassResetLosesWrite` | examples/stm32/src/bin/stm32f411x_scsi_bbb.rs:259-278 | the whole mishap: a command cut off by a class reset, then a Write of as many bytes as were handled, reported as passed and lost |
| `Liveness.RoundProgress` | examples/stm32/src/bin/stm32f411x_scsi_bbb.rs:237-281 | each handler call and poll on a fitting block command passes it or leaves strictly less to do |
| `Liveness.Passes` | examples/stm32/src/bin/stm32f411x_scsi_bbb.rs:237-281 | so it passes within a number of rounds bounded by the bytes to move |
| `Liveness.ReadPassesExactly` | examples/stm32/src/bin/stm32f411x_scsi_bbb.rs:237-258 | a Read ever passes if and only if its transfer length covers its blocks |
| `Liveness.ReadVerdictExactly` | examples/stm32/src/bin/stm32f411x_scsi_bbb.rs:237-258 | a call of the Read handler ends the command if and only if all its blocks were handed over |
| `Liveness.WriteVerdictExactly` | examples/stm32/src/bin/stm32f411x_scsi_bbb.rs:259-281 | a call of the Write handler ends the command if and only if the host has sent the bytes of its blocks, whatever the transfer length |
| `Liveness.VerdictNeedsBytes` | examples/stm32/src/bin/stm32f411x_scsi_bbb.rs:237-281 | a verdict took a transfer length (Read) or bytes received (Write) that cover the blocks |
| `Liveness.WriteNeedsLength` | examples/stm32/src/bin/stm32f411x_scsi_bbb.rs:259-281 | from a host that keeps to its transfer length a Write passes only if that covers its blocks |
| `Hosts.WritePassesExactly` | examples/stm32/src/bin/stm32f411x_scsi_bbb.rs:259-281 | some run passes a Write if and only if its blocks have at most its transfer length and a packet less a byte |
| `Hosts.PassesWithData` | examples/stm32/src/bin/stm32f411x_scsi_bbb.rs:259-281 | then for all data a run that passes it with just that data stored |
| `Hosts.ShortWritePasses` | examples/stm32/src/bin/stm32f411x_scsi_bbb.rs:259-281 | a run of a new device, for Writes of any size, in which the host announces less than the blocks, sends them all, and is told passed with residue 0 |
| `Firmware.DirectFirmware.ReadArm` | examples/stm32/src/bin/stm32f411x_scsi_bbb.rs:237-258 | the handler on the object is the handler on values |
| `Firmware.DirectFirmware.WriteArm` | examples/stm32/src/bin/stm32f411x_scsi_bbb.rs:259-281 | the handler that writes the array in place is the handler on values |
| `Firmware.DirectFirmware.PollCommand` | usbd-storage/src/subclass/scsi.rs:251-278 | dispatch, handler and poll on the object are one device step, and the answer is the handler's error or the poll's answer |
| `Staging.Position` | examples/rp2040/src/bin/rp2040_scsi_bbb.rs:274-281 | the handler's arithmetic points at the first byte not yet staged of the block after the programmed ones, and goes on exactly when a block is full |
| `Staging.LoopStaged` | examples/rp2040/src/bin/rp2040_scsi_bbb.rs:273-295 | the loop takes all the transport has, however much that is; the full blocks of it are programmed in order and the rest is staged |
| `Staging.KeepsStepExactly` | examples/rp2040/src/bin/rp2040_scsi_bbb.rs:266-307 | one call comes to the same transport, answer and storage as the direct handler, with each block programmed once on a pass, if and only if the buffered bytes are all the Write's |
| `Staging.RunsPastTheEnd` | examples/rp2040/src/bin/rp2040_scsi_bbb.rs:273-300 | otherwise it takes them all, gives no verdict and leaves the offset past the end, where the direct handler passes |
| `Staging.NeighbourExactly` | examples/rp2040/src/bin/rp2040_scsi_bbb.rs:281-291 | the block after the Write's last is programmed, with the surplus, exactly when a block of that has been taken |
| `StagedRuns.ScsiInBlocks` | usbd-storage/src/subclass/scsi.rs:148-179 | every SCSI Write is of whole blocks, as the staged device needs |
| `StagedRuns.PollStagedTracks` | examples/rp2040/src/bin/rp2040_scsi_bbb.rs:244-309 | a handler call and the poll after it keep the staged device standing for a direct one that is an array of blocks |
| `StagedRuns.FlashIsReplay` | examples/rp2040/src/bin/rp2040_scsi_bbb.rs:244-309 | in every run with a host that sends no more than its blocks, between commands the flash is the commands since the last reset applied in order |
| `StagedRuns.FlashReadBack` | examples/rp2040/src/bin/rp2040_scsi_bbb.rs:244-309 | and what the host wrote is what the host reads |
| `Overruns.OverrunBegins` | examples/rp2040/src/bin/rp2040_scsi_bbb.rs:273-300 | the first call that finds more bytes than the Write has left puts it past its end |
| `Overruns.OverrunNeverEnds` | examples/rp2040/src/bin/rp2040_scsi_bbb.rs:266-307 | from there on, in every run without a reset, there is no verdict, and the neighbouring block is programmed once its bytes are in |
| `Overruns.OverrunExactly` | examples/rp2040/src/bin/rp2040_scsi_bbb.rs:266-307 | some run takes a Write past its end if and only if it has blocks, and fewer bytes of them than its transfer length and a packet less a byte |
| `Overruns.OverrunHappens` | examples/rp2040/src/bin/rp2040_scsi_bbb.rs:266-307 | a run of a new device to that point, for Writes of any size |
| `FlashResets.FlashResetExactly` | examples/rp2040/src/bin/rp2040_scsi_bbb.rs:266-307 | after a reset of the transport alone the next Write is in the flash when reported and not past its end before, for every host that keeps to its blocks, if and only if the offset was 0 |
| `FlashResets.StaleFlashWriteCheats` | examples/rp2040/src/bin/rp2040_scsi_bbb.rs:266-307 | with an offset up to its size, a run that reports the Write before the host has sent it all |
| `FlashResets.StaleFlashWriteNeverEnds` | examples/rp2040/src/bin/rp2040_scsi_bbb.rs:266-307 | with a larger one there is no verdict in any run without a reset |
| `FlashFirmware.StagedFirmware.StageAll` | examples/rp2040/src/bin/rp2040_scsi_bbb.rs:273-295 | the loop in place terminates and is the loop on values |
| `FlashFirmware.StagedFirmware.WriteArm` | examples/rp2040/src/bin/rp2040_scsi_bbb.rs:266-307 | the handler that fills the write buffer in place is the handler on values, with no condition on what is buffered |
| `FlashFirmware.StagedFirmware.ReadArm` | examples/rp2040/src/bin/rp2040_scsi_bbb.rs:244-265 | the Read handler on the object is the direct handler on the flash |
| `FlashFirmware.StagedFirmware.PollCommand` | usbd-storage/src/subclass/scsi.rs:251-278 | dispatch, handler and poll on the object are one device step, and the answer is the handler's error or the poll's answer |
| `Chs.ChsIsABijection` | usbd-storage/src/subclass/ufi.rs:45-55 | track, head and sector are the one place with that block address |

## Left out

- StagedRuns.FlashIsReplay: asks that a Write gets no more bytes than its blocks have, the condition under which
  one call keeps step (`Staging.KeepsStepExactly`); what happens otherwise is in `Overruns.OverrunNeverEnds`.
- FlashFirmware.StagedFirmware.WriteArm: the flash call is an abstract block overwrite, without erase failures. The
  flash may go on behind the file system; a block behind its end changes nothing but the record of calls.
- Liveness.Passes: counts rounds of one handler call and one poll on a bus that is ready for one packet.
- Framing.LeadingPacketsAreFull: needs an IN endpoint that takes whole packets; all other results allow partial writes.
- Blocks.StorageIsReplay: asks that block commands stay inside the storage, as the source's slicing does, and
  that the transport alone is reset only between them; the other case is in `ClassResets.ClassResetExactly`. The
  range condition also shuts out addresses whose 32-bit product with the block size wraps: the source, without
  overflow checks, would slice at the wrapped place (address 2^23 with blocks of 512 bytes is block 0).
- `usb_device`, endpoint allocation, descriptors, control requests other than the reset, Get Max LUN.
- The request behind the class reset event. The event is request 0xFF as usbd-storage/src/transport/bbb.rs:699-714
  handles it, in `control_in`. The Bulk-Only Mass Storage Reset of section 3.1 is a host-to-device request, and
  neither the transport nor a subclass has a `control_out`.
- Logging, LEDs, critical sections and static mutexes; the handlers' state is plain fields.
- The constant INQUIRY, sense, mode and capacity replies: handlers that move no blocks are arbitrary callbacks.
- SCSI fields other than those of READ and WRITE, and the UFI command blocks.
- Closures over slices are functions of their captured state and the slice, since they cannot be references.
