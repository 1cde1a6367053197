# A verified model of the MM controller

The repository is the controller of a mining device: an LM32 processor in an FPGA with a SHA-256
peripheral and a two-wire master (Verilog), and the firmware that takes jobs from a host over a serial
line, turns them into work for eighty hashing chips, checks the nonces the chips find and reports them.

This project models its three cores and some of its library in Dafny and proves what they are for:

* **The hash engine.** The registers of the compression circuit hold the state of FIPS 180-4 on every
  clock, whatever the stalls (`ShaCore`, `ShaRuns`); the bus registers and the double-hash sequencer
  around it answer the processor's bus cycles correctly with any idle clocks in between (`DblSha`,
  `ShaUnit`); the firmware's driver on top computes SHA-256 and double SHA-256 of byte strings
  (`Sha256Driver`). `Sha256` is the standard itself.
* **Work and nonces.** The 44-byte task a chip gets and the 80-byte header the firmware checks give the
  same hash; work generation patches its buffers in place and yet depends only on the job and the
  nonce2 (`WorkSpec`, `Miner`).
* **The manager.** The three job slots, the chip records, the result ring and the counters are a state
  machine (`ManagerSpec`). The imperative program (`Manager`, `Firmware`) makes a run of that machine,
  pass by pass, out of whatever bytes arrive, reads the line until it is empty at every call (`Calls`),
  and puts out the frames that carry the run's replies and the tasks of its dispatches (`Transcript`,
  `ReportWire`), one for each event that has one (`Outputs`). Over every run:
  a job comes together from its packets in any order, even with late results in between (`Upload`,
  `StaleUpload`), what a poll reports is told exactly from the run (`JobSafety`, `Provenance`), each
  dispatched nonce2 is told from the last SET, the counters add up (`Accounting`), the rings show the
  newest items (`Rings`, `ResultRing`, `Uart`). The serial stream is cut into packets like a greedy scan
  would (`Framing`); the CRC is the remainder of a division of polynomials and finds every burst of
  sixteen bits (`Crc16`, `CrcPolynomial`, `Packets`).
* **The bytes.** `Protocol` states what the packets do in the numbers of the protocol: type bytes, field
  offsets, array bounds, answers; `Packets` and `ReportWire` do it for the frames sent.
* **Runs followed event by event.** `Story`, `LateStory` and `LostResults` are runs from power-on in which
  things go wrong. They need a job with a known nonce: its header is that of the first block of the
  Bitcoin chain (`KnownJob`), whose hash is computed round by round (`KnownAnswer`).
* **Three kernels.** The aligned `memcpy` (`Memcpy`), the integer printer (`Printf`) and the two-wire
  master with the routines that drive it (`Twi`, `TwiDriver`).

Objects whose fields the source updates are classes with methods; each method is tied to a function on
values, and the theorems are about those functions. Words in hardware registers are `bv32`; a C
`uint32_t` used for arithmetic is an integer below 2^32. Memory is big-endian, as LM32 is.

Some things the code promises fail for some inputs. Each is stated with its exact condition and with an
input for which it fails:

* `encode_pkg` writes the CRC low byte first and `decode_pkg` reads it high byte first, so the firmware
  accepts a frame of its own exactly when the two bytes are equal (`Packets.EncodedAccepted`), and not
  the status it sends after its first result (`ReportWire.OwnFrameRejected`).
* The driver's length field is a 32-bit product, so it is the standard's exactly below 2^29 bytes
  (`Sha256Driver.LengthFieldExact`), and from 2^31 bytes on its signed loop bound leaves the whole blocks
  out (`Sha256Driver.Update`).
* `found` is cleared once a pass and not once a chip, so local work is not valid plus hardware errors;
  the difference is the failures after a success in their pass (`Accounting.LocalWorkLaw`); in
  `Story.LocalWorkUncounted` two chips answer, one nonce is valid and no error is counted.
* Zeros after a left-aligned number change it (`Printf.RoundTrip`): "%-02d" prints 1 as 10
  (`Printf.OneBecomesTen`).
* The first byte of a two-wire transfer is lost exactly when 4002 clocks lie between its command and that
  of the start, unless it is 255 (`Twi.ByteHeard`, `Twi.StartThenByte`, `TwiDriver.WrittenExact`;
  `Twi.ByteLost`). SCL glitches exactly when a write finds the counter at 1401 (`Twi.ByteHeard`); that
  takes a command that cuts another one short (`Twi.ByteGlitched`), and the driver never gives one
  (`TwiDriver.CommandRuns`).
* A nonce is reported with the id its job's slot holds at the poll. `Provenance.ReportExact` tells that
  id: the data of the last job id packet that came when the number of SETs since the dispatch was 2
  modulo 3, and the job's own if there was none. In `Story.WrongIdReported` the nonce of a job with id 0
  is reported with any id the host likes.
* Late results, collected in the middle of an upload, write their nonce2 and their merkle root into the
  slot. For any number of them, at any times, `StaleUpload.UploadExact` tells from the run when the job
  dispatched afterwards is the uploaded one: exactly when no byte they left behind, outside the final
  windows, differs from what the packets put there. None does while no STATIC packet moves a window
  (`StaleUpload.UploadDispatched`). In `LateStory.LateResultSpoils` the first 32 header bytes are lost
  whatever they were.
* Both rings lose items exactly when as many as they hold are outstanding (`Rings.LosslessIff`). In
  `LostResults.ResultsLost` 64 chips find a nonce in one pass and the next poll reports none; in
  `Uart.FullRing` 1024 bytes are never read, and in `Uart.OneTooMany` 1024 bytes are skipped.
* The CRC covers the data and itself (`Packets.BurstRejected`); an error in the five bytes before them,
  kind and index included, is never noticed (`Packets.HeaderUnchecked`).

## Model

| member | source | states |
|---|---|---|
| ShaCore.LogicWires | verilog/superkdf9/components/sha/sha_core.v:108-110 | the two logic wires are Ch and Maj of FIPS 180-4 section 4.1.2 |
| ShaCore.SigmaWires | verilog/superkdf9/components/sha/sha_core.v:112-118 | the four concatenation wires are the standard's Sigma and sigma functions |
| ShaCore.ScheduleWires | verilog/superkdf9/components/sha/sha_core.v:125 | the next schedule word is the W_t recurrence |
| ShaCore.RoundWires | verilog/superkdf9/components/sha/sha_core.v:121-127 | one shift of A..H is one round of the standard |
| ShaCore.WindowSlides | verilog/superkdf9/components/sha/sha_core.v:456-471 | sliding W0..W14 keeps the last fifteen schedule words and computes the next one |
| ShaCore.VarsSlide | verilog/superkdf9/components/sha/sha_core.v:452-483 | a sliding round brings A..H, Wt and Kt one round further together |
| ShaCore.VarsAccept | verilog/superkdf9/components/sha/sha_core.v:208-451 | accepting a word does not disturb the rounds already done and prepares the next one |
| ShaCore.PreAccept | verilog/superkdf9/components/sha/sha_core.v:221-257 | A0..A2 and E0..E2 record a and e after rounds 1 to 3 |
| ShaCore.Core.Clock | verilog/superkdf9/components/sha/sha_core.v:134-597 | every clock keeps the registers at the abstract automaton's block, words and clock, and `done` is high exactly after the last one; an `init` during a block replaces A..H and H0..H7 and leaves round and schedule where they were |
| ShaCore.Core.Finish | verilog/superkdf9/components/sha/sha_core.v:484-496 | round 64 leaves the compression of the accepted words from the chaining value |
| ShaRuns.AnyStalls | verilog/superkdf9/components/sha/sha_core.v:158-504 | for any stalls between sixteen words: busy for 48 clocks, then the compression of those words |
| ShaRuns.AnyBlocks | verilog/superkdf9/components/sha/sha_core.v:134-154 | any number of blocks with any stalls chain, as H0..H7 take A..H |
| ShaRuns.ClockBurst | verilog/superkdf9/components/sha/sha_core.v:130-597 | clocked through such a burst, A..H hold the compression and `done` is high at its end |
| DblSha.SecondBlockIsPadding | verilog/superkdf9/components/sha/dbl_sha.v:41-48 | digest and constant are exactly the padded 32-byte message of FIPS 180-4 section 5.1.1 |
| DblSha.Sequencer.Clock | verilog/superkdf9/components/sha/dbl_sha.v:25-48 | a captured digest is fed in sixteen clocks, and the shift register is always at the right word; it demands that a digest was captured before it is fed |
| DblSha.OffersSecondBlock | verilog/superkdf9/components/sha/dbl_sha.v:50-51 | the k-th word offered is the k-th word of the second block |
| ShaUnit.Unit.Clock | verilog/superkdf9/components/sha/sha.v:36-252 | one clock of registers, sequencer and core together; it demands that no INIT or DBL reaches a core at work |
| ShaUnit.Unit.QuietClock | verilog/superkdf9/components/sha/sha.v:36-94 | a clock that brings the core nothing new takes a hash one clock nearer and changes nothing else, in all 67 states of a double hash |
| ShaUnit.Unit.WriteRst | verilog/superkdf9/components/sha/sha.v:148-157 | RST restores the standard's initial hash value, whatever the core is doing, and does not disturb it |
| ShaUnit.Unit.WriteHi | verilog/superkdf9/components/sha/sha.v:158-159 | HI shifts one word into the initial hash value, whatever the core is doing, and does not disturb it |
| ShaUnit.Unit.WriteInit | verilog/superkdf9/components/sha/sha.v:60-67 | INIT starts a message from the initial hash value; it demands an idle core, since the circuit would not reset its round |
| ShaUnit.Unit.WriteDbl | verilog/superkdf9/components/sha/sha.v:87-94 | DBL restarts from the initial hash value with the second block of the held digest; it demands a finished block |
| ShaUnit.Unit.WriteDin | verilog/superkdf9/components/sha/sha.v:100-111 | DIN adds one word, and the sixteenth makes the core busy; it demands a core that awaits words |
| ShaUnit.Unit.ReadCmd | verilog/superkdf9/components/sha/sha.v:69-76 | while a block is worked on DONE never shows before the hash is there, and a poll that does not see it was nearer to it; while words are awaited it is the last block's |
| ShaUnit.Unit.ReadHash | verilog/superkdf9/components/sha/sha.v:117-142 | successive reads give the digest words in order, and leave the digest |
| ShaUnit.Unit.ReadPre | verilog/superkdf9/components/sha/sha.v:165-189 | successive reads give the six precalculated values in order |
| Sha256Driver.LengthFieldExact | firmware/sha256.c:55-58 | the length field is the standard's if and only if the message is shorter than 2^29 bytes |
| Sha256Driver.LengthFieldValue | firmware/sha256.c:55-58 | the field is eight times the length modulo 2^32 at every length |
| Sha256Driver.TailIsPadding | firmware/sha256.c:38-72 | whole blocks and tail make the padded message, on both sides of 55 bytes |
| Sha256Driver.Init | firmware/sha256.c:18-22 | afterwards the core waits for a message at the standard's initial value |
| Sha256Driver.AwaitDone | firmware/sha256.c:119-120 | polling ends, with the hash finished |
| Sha256Driver.WriteBlock | firmware/sha256.c:24-36 | the big-endian words of a block are compressed into the held value |
| Sha256Driver.Update | firmware/sha256.c:74-84 | folds the compression over the whole blocks below 2^31 bytes, and over none from there on |
| Sha256Driver.HashedMessage | firmware/sha256.c:38-84 | what is hashed in all: below 2^31 bytes the whole message and its padding, from there on only what follows its whole blocks |
| Sha256Driver.Padding | firmware/sha256.c:38-72 | hashes remainder and padding, in one block or two |
| Sha256Driver.Final | firmware/sha256.c:97-106 | reads the digest bytes and leaves the rest of the buffer alone |
| Sha256Driver.HashMessage | firmware/sha256.c:108-114 | the digest of those blocks and the driver's tail: SHA-256 of every message below 2^29 bytes |
| Sha256Driver.SecondHash | verilog/superkdf9/components/sha/sha.v:212-224 | compressing the sequencer's words from the initial value is hashing the digest |
| Sha256Driver.DoubleHashMessage | firmware/sha256.c:123-131 | SHA-256 of that digest: double SHA-256 of every message below 2^29 bytes |
| Sha256Driver.PrecalcMessage | firmware/sha256.c:133-154 | a and e after rounds 1 to 3 from the loaded state, words in reverse order |
| Sha256Driver.LoadedReversed | firmware/sha256.c:138-142 | word i of the loaded value is word 7 - i in memory |
| Sha256Driver.ReorderedWords | firmware/sha256.c:146-148 | the three words of the last block are offered last word first |
| Sha256Driver.PrecalcOrder | firmware/sha256.c:86-95 | first a, then e, after rounds 1, 2 and 3 |
| Sha256.HashBlocksAppend | firmware/sha256.c:74-84 | hashing block strings one after the other is hashing their concatenation |
| Bytes.FlipTwice | firmware/miner.c:21-50 | flipping the byte order of words twice changes nothing |
| Bytes.LimbsValue | firmware/miner.c:103-105 | the word-swapped limbs of a buffer are its value as a little-endian number |
| Bytes.TopLimbDecides | firmware/miner.c:107-114 | the highest differing limb decides which number is smaller |
| Bytes.LastByteWeighs | firmware/miner.c:96-118 | the byte at index i of a little-endian number weighs 256^i |
| Bytes.SwappedBytes | firmware/miner.c:75-76 | a swapped word lies in memory with its least significant byte first |
| WorkSpec.PatchedAgain | firmware/miner.c:75-91 | patching in place over an earlier patch is patching the untouched job |
| WorkSpec.HistoryIrrelevant | firmware/miner.c:69-94 | any run of earlier work generations leaves no trace in the next |
| WorkSpec.CoinbasePatched | firmware/miner.c:75-76 | the generated coinbase is the job's with the four bytes of nonce2 at its offset, the least significant first |
| WorkSpec.RootStarts | firmware/miner.c:79-80 | without a branch the root is the double hash of the first bytes of that coinbase |
| WorkSpec.RootSteps | firmware/miner.c:81-85 | one more branch entry hashes it behind the root so far, for every number of entries up to twenty |
| WorkSpec.HeaderPatched | firmware/miner.c:86-90 | the generated header is the job's with the root at its offset, the bytes of each word in the other order |
| WorkSpec.RestPatched | firmware/miner.c:69-90 | nothing of the job but coinbase and header changes |
| WorkSpec.FlippedHeader | firmware/miner.c:127-138 | the flipped header is its flipped first block, the flipped tail and the nonce |
| WorkSpec.HashedBytes | firmware/miner.c:127-138 | the 80 hashed bytes one by one: each header word with its bytes reversed, the nonce most significant byte first |
| WorkSpec.ChipAgreesWithCheck | firmware/miner.c:52-146 | for every header and nonce the chip's 44-byte task and the firmware's 80-byte check give the same double hash |
| WorkSpec.CheckIgnoresHistory | firmware/miner.c:120-146 | earlier work generations do not change a verdict |
| WorkSpec.CheckExact | firmware/miner.c:141-146 | a hardware error exactly when one of the last four hash bytes is not zero; a hit exactly when they are and the hash is below the target |
| Miner.FlipWords | firmware/miner.c:21-50 | writes the byte-flipped words |
| Miner.FlipBlock | firmware/miner.c:31-40 | assembling words from bytes is the same flip |
| Miner.CalcMidstate | firmware/miner.c:52-67 | leaves the chip's task of the job's header |
| WorkSpec.TaskBytes | firmware/miner.c:52-67 | the task byte by byte: the midstate words with their bytes reversed, then header bytes 64 to 75 |
| Miner.FoldBranch | firmware/miner.c:79-85 | the root is the left fold of the double hash over the branch |
| Miner.GenNonce2Work | firmware/miner.c:69-94 | patches coinbase and header, and fills the work with the header and task of job and nonce2 |
| Miner.FullTest | firmware/miner.c:96-118 | DIFF if and only if the hash is below the target as 256-bit little-endian numbers |
| Miner.RegenHash | firmware/miner.c:131-139 | double SHA-256 of the flipped 80 bytes |
| Miner.TestNonce | firmware/miner.c:120-146 | the verdict on job, nonce2 and nonce, and exactly the in-place patch |
| Crc16.TableEntry | firmware/crc16.c:1-34 | all 256 table entries are the division of their index |
| Crc16.ShiftLinear | firmware/crc16.c:36-45 | a register step is linear over exclusive or |
| Crc16.TableStep | firmware/crc16.c:41-42 | one table lookup is eight bits of long division |
| Crc16.ComputeCrc16 | firmware/crc16.c:36-45 | the loop computes the bitwise CRC of the bytes |
| CrcPolynomial.CrcIsTheRemainder | firmware/crc16.c:36-45 | a register value is a remainder of the message times x^16 by x^16+x^12+x^5+1 if and only if it is the CRC |
| CrcPolynomial.RemainderUnique | firmware/crc16.c:36-45 | that remainder is unique |
| CrcPolynomial.DivideLinear | firmware/crc16.c:36-45 | the CRC is linear on messages of equal length |
| CrcPolynomial.BurstDetected | firmware/main.c:184-191 | every nonzero error burst of at most sixteen bits changes the CRC |
| Packets.EncodedAccepted | firmware/main.c:113-115 | a frame of the encoder passes the decoder's check if and only if its CRC bytes are equal |
| ReportWire.OwnFrameRejected | firmware/main.c:99-115 | the status sent with local work 1 and no error, while the sensors read zero, does not |
| Packets.MadeAccepted | firmware/main.c:184-191 | a frame with the high byte of the CRC first is accepted |
| Packets.AcceptedCovered | firmware/main.c:184-191 | a frame is accepted if and only if its data and CRC together are a multiple of the generator |
| Packets.BurstRejected | firmware/main.c:184-191 | an accepted frame in whose data or CRC or both one burst of at most sixteen bits went wrong is rejected |
| Packets.HeaderUnchecked | firmware/main.c:184-191 | an error in the first five bytes changes nothing about that |
| Packets.EncodePkg | firmware/main.c:75-116 | the 39 bytes of every kind of packet sent |
| ReportWire.SendReport | firmware/main.c:144-159 | the frame sent for a report |
| ReportWire.SendAll | firmware/main.c:523-535 | the frames sent carry the replies, one each, in order |
| ReportWire.HostReads | firmware/main.c:75-116 | every byte of a frame sent: "HR", type 53 for a nonce, 54 for a status, 55 for the version, index and count 1, each field at its offset, zeros, and the CRC, low byte first |
| ReportWire.CarriedReads | firmware/main.c:75-116 | a frame that carries a report tells it by its bytes |
| Framing.ReceivedIsScan | firmware/main.c:494-548 | byte by byte from any standing, the frames are those of a greedy scan for "HR" and 37 bytes |
| Framing.ReceivedFromPowerOn | firmware/main.c:494-548 | from power-on the frames are those of the greedy scan of the whole stream |
| Framing.ReceivedAppend | firmware/main.c:494-497 | it does not matter how calls cut the stream |
| Protocol.NoiseSkipped | firmware/main.c:538-545 | bytes without an 'H' are skipped |
| Protocol.FrameFound | firmware/main.c:503-545 | a frame behind such noise is found, and what follows is scanned on its own |
| Protocol.SentIsFrame | firmware/main.c:118-122 | every frame sent is one frame of the same stream format |
| Framing.Receiver.TakeByte | firmware/main.c:503-544 | one byte through the static variables; count stays in 2..38 and a frame leaves start = 0, count = 2 |
| Rings.PushShows | firmware/uart.c:54-55 | an unchecked push keeps each cell the newest item with its index |
| Rings.VisibleIsNewest | firmware/uart.c:60-73 | what a reader sees is the newest (pushed - taken) mod N items, oldest first |
| Rings.LosslessIff | firmware/main.c:457-459 | nothing is lost if and only if fewer than N items are outstanding |
| Uart.Receiver.Isr | firmware/uart.c:51-58 | stores every byte the device has ready |
| Uart.Receiver.Read | firmware/uart.c:61-68 | with the handler free to run between any two steps: the byte returned is the newest item with the reader's index; none only if the ring looks empty and the line stays silent |
| Uart.Receiver.ReadNonblock | firmware/uart.c:71-74 | false if and only if the ring looks empty |
| Uart.Receiver.GivenIsPrefix | firmware/uart.c:51-68 | what was read is the beginning of the line if at most 1024 bytes waited at every read, as they do on every line of at most 1024 bytes |
| Uart.ReadsInOrder | firmware/uart.c:61-68 | the item read next is the next one if and only if at most 1024 bytes wait |
| Uart.FullRing | firmware/uart.c:51-74 | with 1024 bytes stored and none read the ring looks empty |
| Uart.OneTooMany | firmware/uart.c:51-68 | with 1025 the last one is read first |
| ManagerSpec.StepValid | firmware/main.c:34-64 | every event keeps all indices inside their arrays and the reset counter below ten |
| ManagerSpec.RunAppend | firmware/main.c:600-658 | runs compose |
| Manager.StorePacket | firmware/main.c:193-270 | the seven kinds of job packet, written in place |
| Manager.Manager.Polling | firmware/main.c:124-161 | reports the oldest visible result with its slot's job, or the counters, which it clears |
| Manager.Manager.StoreSet | firmware/main.c:239-261 | the slot being written becomes current with nonce2 offset + range |
| Manager.Manager.DecodePkg | firmware/main.c:164-406 | 1 and no change for a bad CRC, otherwise the packet's step of the state machine |
| Protocol.RepliesByType | firmware/main.c:523-535 | an accepted packet of type 10 is answered with the version, 16 with a result or the counters, 18 with the counters, others with nothing |
| Protocol.RejectedIgnored | firmware/main.c:184-191 | a rejected packet changes nothing and is not answered |
| Protocol.SlotByType | firmware/main.c:178-271 | types 11 to 15 and 17 change the slot after the current one and nothing else |
| Protocol.OthersByType | firmware/main.c:193-262 | exactly what types 10, 16 and 19 change; all others change nothing |
| Protocol.JobByBytes | firmware/main.c:197-219 | what a packet writes into a job, field by field from its bytes |
| Protocol.BuffersByBytes | firmware/main.c:220-233 | each byte of coinbase and header after a packet |
| Protocol.RangeByBytes | firmware/miner.h:36-56 | a coinbase, branch or header packet is out of range exactly when it would write beyond its array |
| Protocol.StaticRange | firmware/miner.h:36-56 | and a STATIC packet exactly when a window would lie beyond its array |
| Firmware.DecodeAndAnswer | firmware/main.c:519-537 | the frames sent for a packet carry the machine's replies to POLLING, DETECT and REQUIRE |
| Manager.Search | firmware/main.c:440-450 | the in-place search finds the first good nonce in the order of the offsets |
| Manager.Manager.DispatchTo | firmware/main.c:648-652 | counts nonce2 up, hands the chip the task of the current job and records it |
| Manager.Manager.CollectChip | firmware/main.c:432-488 | one ready chip: counters, ring, `found` and the reset counter |
| Manager.PowerOn | firmware/main.c:39-64 | the zeroed variables are the machine's first state |
| Provenance.FirstInOrder | firmware/main.c:430-450 | the nonce kept is the first good one of answer + 0, -1, 1, -2, 2, -3, 3, 4, -4; none only if all nine fail |
| JobSafety.EssenceDecides | firmware/miner.h:36-56 | what is left of a job besides the patched windows and the counter decides ids, headers and verdicts |
| JobSafety.StepKeepsJob | firmware/main.c:178-179 | no event but a job packet addressed to it changes the job in a slot |
| JobSafety.RunKeepsJob | firmware/main.c:197-271 | a slot keeps its job over any run in which no job packet comes two SETs (modulo three) later |
| JobSafety.FewSetsKeep | firmware/main.c:260 | fewer than two SETs cannot spoil a job |
| JobSafety.IdsFollow | firmware/main.c:197-219 | over every run id and pool in a slot are a fold over the packets: those that come when the SETs since the slot was current are 2 modulo 3 replace them, no others |
| Provenance.AllKnown | firmware/main.c:415-416 | in every run each chip record is that of its last dispatch or as at power-on, and each ring entry was found in the past, from such a record, with a nonce good for its slot at that time |
| Provenance.DispatchedJobKept | firmware/main.c:643-652 | while unspoiled, the slot still holds the job its work was built from |
| Provenance.ReportExact | firmware/main.c:139-159 | for every run, spoiled or not, what a poll reports: chip and nonce2 of the dispatch, and id and pool of the dispatched job after the fold over the packets since |
| Provenance.ResultGood | firmware/main.c:440-447 | a nonce found before its job was spoiled finishes the chip's task to a hash below that job's target |
| Provenance.ReportFaithful | firmware/main.c:139-159 | an unspoiled report carries id and pool of the job its work was built from, and its nonce finishes the chip's task to a hash below that job's target |
| Accounting.ConsecutiveNonces | firmware/main.c:648-650 | between SETs the dispatched nonce2 values count up modulo 2^32, whatever comes in between |
| Accounting.NoncesNeverRepeat | firmware/miner.c:69-77 | no two of 2^32 successive ones are equal |
| Accounting.NonceLaw | firmware/main.c:254-260 | over every run: the nonce2 dispatched i dispatches after the last SET is that SET's offset + range + 1 + i modulo 2^32, and it counts from its first value before any SET |
| Accounting.RangeLaw | firmware/main.c:254-255 | over every run offset and range are those of the last SET, or as at power-on |
| Accounting.WorkLaw | firmware/main.c:194-195 | over every run there is work to dispatch if and only if a SET came that no DETECT and no idle timeout has followed |
| Accounting.CountersAddUp | firmware/main.c:452-475 | what polls were told and what is still counted, of local work and of errors, is what happened over any run; every ring push is counted |
| Accounting.RequireTells | firmware/main.c:529-531 | a REQUIRE is told, at any time, what happened less what polls were told |
| Accounting.ResetLaw | firmware/main.c:480-486 | ten times the resets plus the reset counter are the hardware errors, and the counter is below ten |
| Accounting.LocalWorkLaw | firmware/main.c:429-475 | local work is valid results, hardware errors and the failures after a success of their pass |
| Accounting.FoundMeansHit | firmware/main.c:429-447 | `found` is set if and only if a result was found since the pass began |
| ResultRing.RingShows | firmware/main.c:457-464 | over every run ring and indices are those of the results found and reported since the last idle timeout |
| ResultRing.PollReportsNewest | firmware/main.c:131-140 | a poll reports the oldest of the newest (found - reported) mod 64 results |
| ResultRing.PolledHasOrigin | firmware/main.c:131-140 | what a poll reports was found in this run |
| Upload.CoinbaseFilled | firmware/main.c:220-225 | each chunk of the coinbase is what the last packet for it carried, or zero after a later first packet |
| Upload.HeaderFilled | firmware/main.c:230-233 | each chunk of the header is what the last packet for it carried |
| Upload.MerkleFilled | firmware/main.c:226-229 | each branch entry is what the last packet for it carried |
| Upload.SinglesFilled | firmware/main.c:216-219 | job id and target are those of their last packets |
| Upload.NumbersFilled | firmware/main.c:197-204 | the seven numbers of a job, encoded by a host, are the slot's numbers |
| Upload.JobAssembled | firmware/main.c:193-270 | in any order, packets that carry a job leave exactly that job in the slot |
| Upload.RunFills | firmware/main.c:178-179 | until the next SET the written slot is the fold of the accepted job packets, whatever else happens, if no stale chip is collected |
| StaleUpload.SameJob | firmware/miner.c:69-94 | two slots hold the same job if and only if they are equal outside the windows work generation patches and the counter |
| StaleUpload.RunSettled | firmware/main.c:440-444 | until the next SET the written slot holds the job its packets carry whatever late results come in, unless a STATIC packet moves a window after one |
| StaleUpload.UploadDispatched | firmware/main.c:254-261 | such an upload, SET and first dispatch hand a chip the task of the uploaded job with nonce2 offset + range + 1 |
| StaleUpload.BytesTouched | firmware/main.c:440-444 | after any late results and packets each byte of the slot is what the last late result left there, if no packet wrote it since, or what the packets put there |
| StaleUpload.LateExact | firmware/main.c:440-444 | after any late results and packets in any order the slot holds the same job as without the late results if and only if no byte left that way, outside the final windows, differs |
| StaleUpload.LateHeader | firmware/main.c:648-650 | the headers made from it are the same if and only if no header byte was lost and the merkle roots agree, as they do if no coinbase byte was lost |
| StaleUpload.RunTouches | firmware/main.c:178-179 | over every run the slot being written is exactly what packets and late results make of it until the next SET |
| StaleUpload.UploadExact | firmware/main.c:254-261 | over every run with an upload and its SET: the slot then current holds the uploaded job if and only if nothing was lost in that sense, and the header dispatched is its header if and only if no header byte was lost and the merkle roots agree |
| LateStory.LateResultSpoils | firmware/main.c:440-444 | from power-on: header packet, late result, STATIC packet, SET; every header dispatched begins with the late result's root, whatever was uploaded |
| LostResults.ResultsLost | firmware/main.c:131-140 | from power-on: 64 chips find a nonce in one pass, and the poll reports local work 64 and no nonce |
| KnownAnswer.LastWordZero | firmware/miner.c:141-143 | SHA-256 twice over the first block header of the Bitcoin chain ends in a zero word |
| KnownJob.KnownNonce | firmware/miner.c:120-146 | the check accepts its nonce for a job with that header |
| Story.WrongIdReported | firmware/main.c:139-159 | from power-on: the nonce found for a job with id 0 is reported with any given id |
| Story.LocalWorkUncounted | firmware/main.c:429-475 | from power-on: two answers, one valid nonce, no hardware error |
| Firmware.GetPkg | firmware/main.c:494-548 | the frames handed over are those of the bytes it reads, each made a step and answered; it returns 0 only when the ring looked empty between frames, 1 exactly for a rejected last frame, and blocks only on a silent line, either within a frame or because 1024 bytes came between the look and the read, so that the ring, full, looks empty; every return leaves start = 0, count = 2 |
| Firmware.ReadResult | firmware/main.c:420-491 | a result pass is its start and one collection for each ready chip |
| Firmware.ServeAll | firmware/main.c:643-655 | the dispatch loop dispatches to exactly the idle chips in order, up to where it blocked, and after each the line is read as `GetPkg` does |
| Firmware.MainPass | firmware/main.c:600-658 | one pass is a call of `get_pkg`, the timer, and while there is a job a dispatch to each idle chip with a call after it, and a result pass; it ends early only where a call does |
| Firmware.PassServes | firmware/main.c:633-655 | a complete pass dispatches to every idle one of the 80 chips, the lowest first, if its packets left work and the timer has not run out, and else to none |
| Firmware.PassCollects | firmware/main.c:657 | with work it ends with a look at every ready one of them |
| Firmware.IdleExact | firmware/main.c:643-646 | the chips served are exactly the idle ones, in order |
| Firmware.CollectsExact | firmware/main.c:432-435 | the answers taken are exactly those of the ready ones, in order |
| Firmware.ServedFirst | firmware/main.c:648-655 | each call of `get_pkg` comes after its dispatch |
| Firmware.MainLoop | firmware/main.c:565-658 | from power-on the run is the concatenation of its passes, each with its calls of `get_pkg` on what the line has brought by then, complete but for one that blocks; the frames taken in are the scan of the bytes read, which are the beginning of the line while at most 1024 bytes wait; what is put out are that run's replies and tasks, in order. On a line of less than 1024 bytes: it blocks only within a frame, with the line read to its end; it never stops if the line ends between frames and no packet is out of range; and the line is handled to its end when more passes find it complete than it carries rejected frames |
| Calls.CallsReceive | firmware/main.c:494-548 | however the calls cut the stream they hand over the frames of all bytes read |
| Calls.ReturnedReads | firmware/main.c:499-502 | a call that returned has read all there was when it began and all that came meanwhile, unless its last frame was rejected or 1024 bytes or more waited |
| Calls.EverythingHandled | firmware/main.c:494-548 | a line of less than 1024 bytes is read to its end, and the scan of it handed over, by more calls than it carries rejected frames |
| Calls.BlocksWithin | firmware/main.c:499-503 | on a line of less than 1024 bytes a call blocks only within a frame, with the line read to its end |
| Calls.CleanReturns | firmware/main.c:494-548 | every call returns if such a line ends between frames and carries no packet out of range |
| Firmware.HandedExact | firmware/main.c:648-652 | each task handed to a chip in a run is that of the header of the job and the nonce2 it was dispatched with |
| Outputs.OutputCount | firmware/main.c:188-262 | in a run, one output for each dispatch and each accepted packet of type 10, 16 or 18, and none for anything else |
| Outputs.OutputExact | firmware/main.c:508-652 | the k-th output comes from the k-th such event: a dispatch hands that chip the task of the current job and its next nonce2, a packet gets one frame that carries its reply in the state it found |
| Transcript.SentCarries | firmware/main.c:118-122 | the frames among what a run puts out carry its reports, one for one |
| Firmware.AnswersPacket | firmware/main.c:519-537 | each reply of a run answers a packet, in the state that packet found |
| Firmware.SentExact | firmware/main.c:124-161 | every nonce sent in a run answers a poll and was found in that run; if its chip had been given work it is exactly what `ReportExact` tells, and good for that work unless the job was spoiled before it was found |
| Memcpy.ByteCopyIs | firmware/minilibc/memcpy.c:7-11 | copying byte by byte changes exactly the n bytes, between disjoint regions |
| Memcpy.Move | firmware/minilibc/memcpy.c:31-32 | one access; naturally aligned addresses are demanded |
| Memcpy.CopyWords | firmware/minilibc/memcpy.c:52-73 | words, a half word and a byte, each aligned |
| Memcpy.Copy | firmware/minilibc/memcpy.c:7-74 | for all lengths and alignments the byte-by-byte copy, by aligned accesses only |
| Printf.Prints | firmware/minilibc/printf.c:20-64 | writes the padded string |
| Printf.StoreDigits | firmware/minilibc/printf.c:87-96 | the digits fill the buffer from its end and always leave room for a sign |
| Printf.Printi | firmware/minilibc/printf.c:69-111 | writes sign, padding and digits |
| Printf.PrintedParts | firmware/minilibc/printf.c:98-110 | zeros go between sign and digits or after the digits, spaces outside |
| Printf.PrintedLength | firmware/minilibc/printf.c:24-64 | the output is as long as the width or the natural text, whichever is more; the text fits the 12-byte buffer |
| Printf.RoundTrip | firmware/minilibc/printf.c:69-111 | reading back gives the number if and only if no zeros were added after the digits of a nonzero number |
| Printf.PrintedAre | firmware/minilibc/printf.c:87-110 | nothing but digits is printed, of sixteen with the letters from `letbase` on, and zeros, spaces, and a minus exactly for negative `%d` |
| Printf.FirstDigit | firmware/minilibc/printf.c:90-96 | a number has no leading zeros |
| Printf.OneBecomesTen | firmware/minilibc/printf.c:126-142 | 1 is printed as 10 by "%-02d" |
| Twi.NineBits | verilog/superkdf9/components/twi/twi_core.v:64-71 | nine shifts send the byte's bits from the most significant on, and then let the line go |
| Twi.Progresses | verilog/superkdf9/components/twi/twi_core.v:88-129 | counters, SCL and `done` at every clock of a transfer |
| Twi.ByteHeard | verilog/superkdf9/components/twi/twi_core.v:64-159 | a listener on the wires hears the byte, most significant bit first, and a released ninth bit, if and only if the counter was not left at 1401 and not at 4003 (or the byte is 255) |
| Twi.WriteIsOrderly | verilog/superkdf9/components/twi/twi_core.v:74-86 | `done` rises exactly after the ninth pulse, and SDA moves only while SCL is low, if and only if the counter was not left at 1401 or SDA stands at the first bit already |
| Twi.ByteRead | verilog/superkdf9/components/twi/twi_core.v:143-166 | a read holds the eight sampled levels, and the ninth pulse is acknowledged |
| Twi.SampledHigh | verilog/superkdf9/components/twi/twi_core.v:161-166 | the k-th sample is taken on the k-th pulse, while SCL is high |
| Twi.ReadSamples | verilog/superkdf9/components/twi/twi_core.v:161-166 | a read in clocks: the samples are those of clocks 1502 + 4004 k, the first one the most significant bit |
| Twi.StartRuns | verilog/superkdf9/components/twi/twi_core.v:100-139 | SDA falls, then SCL, then `done` rises, and the counter runs on until it wraps, from any state |
| Twi.StartThenByte | firmware/twipwm.c:18-32 | after a start the byte is heard if and only if the write command does not land on the clock that finds 4003 (or the byte is 255) |
| Twi.ByteLost | firmware/twipwm.c:18-32 | a zero byte whose command comes after 4002 clocks of a start is not heard |
| Twi.ByteGlitched | verilog/superkdf9/components/twi/twi_core.v:100-129 | a byte whose command cuts another write short at count 1401 is not heard |
| Twi.WriteTimes | verilog/superkdf9/components/twi/twi_core.v:16-24 | a write in clocks: nine pulses of 1201, one each 4004, then `done` |
| Twi.StartTimes | verilog/superkdf9/components/twi/twi_core.v:16-24 | a start in clocks: SDA falls after 1201, SCL after 1302, done after 2603 |
| TwiDriver.StopTimes | verilog/superkdf9/components/twi/twi_core.v:16-24 | a stop in clocks: SCL rises after 1401, SDA after 1452, done after 2603 |
| TwiDriver.AwaitDone | firmware/twipwm.c:21-22 | polling at any intervals ends, with `done` high |
| TwiDriver.TwiStart | firmware/twipwm.c:18-23 | from free lines, by one write of the start command: a start condition and nothing else, c clocks after the command |
| TwiDriver.TwiWrite | firmware/twipwm.c:25-32 | at any time after a start or a byte, by writing the byte and the command: a listener hears the byte and a released line, less the first bit if 4002 clocks lie between the command and that of the start |
| TwiDriver.TwiRead | firmware/twipwm.c:34-42 | by one read command: returns the eight levels of SDA sampled after it, and acknowledges |
| TwiDriver.TwiStop | firmware/twipwm.c:44-50 | a stop condition, after which the lines are free |
| TwiDriver.TwiWrite2Byte | firmware/twipwm.c:52-60 | by exactly its ten register writes: a listener hears start, address, zero, low byte, high byte, stop; the clocks of the start and of the first byte's command are those found in the history |
| TwiDriver.TransferExact | firmware/twipwm.c:52-60 | the ten register writes one by one, low byte of the word first |
| TwiDriver.TwiRead2Byte | firmware/twipwm.c:62-77 | by exactly its register writes: a listener hears start, address, zero, stop, start, address with the read bit, two acknowledges, stop; the two bytes sampled after the read commands are returned, the first one high; all clocks are those of the commands in the history |
| TwiDriver.ReadBackWritesExact | firmware/twipwm.c:62-77 | the twelve register writes one by one |
| TwiDriver.ReadTemp | firmware/twipwm.c:130-133 | the first byte of such a read from address 0x48 |
| TwiDriver.WrittenExact | firmware/twipwm.c:52-60 | such a transfer is heard as it was meant if and only if not 4002 clocks lie between its first command and that of the start (or its first byte is 255) |
| TwiDriver.ReadBackExact | firmware/twipwm.c:62-77 | the same for a transfer with two starts |

## Left out

- SPI and the chips' registers: a chip is an environment that is idle or not and answers with any 32-bit nonce; `be200_get_result` (its +1 sits inside an OR) only makes that nonce.
- LEDs, fans, temperatures, delays, the watchdog and clock frequencies: they touch nothing that is proved; temperatures and fan speeds in a status packet are parameters.
- Timers: the idle timeout is a free input of each pass.
- Arrivals: how many more bytes the line has brought by each call of `get_pkg`, at least, is a free input; the handler may store more at any step.
- Production test packets (types 80 and up) and GET_FREQ: they change none of the modelled variables, so the model takes them as packets without effect.
- The optional ACK and NAK: they are compiled out; the model records the replies to POLLING, DETECT and REQUIRE.
- ManagerSpec.PacketInRange: a packet whose index, offset or length leaves the buffers ends the modelled program instead of writing elsewhere in memory.
- The `int` counters of local work and errors are natural numbers and do not overflow; on the wire they are taken modulo 2^32.
- DblSha.Sequencer.Clock: a DBL without a captured digest would feed whatever the shift register holds; as for the members of `ShaUnit` below, the driver never does it.
- Sha256Driver.Update: from 2^31 bytes on the signed product in its loop bound is taken to wrap, which C leaves undefined.
- ShaUnit.Unit.Clock: an INIT or DBL that reaches a core at work is excluded, since nothing of the block survives it (`ShaCore.Core.Clock` says what it does to the core).
- ShaUnit.Unit.WriteInit: excluded while a block is in flight, as above; the driver never does it, which its proof shows.
- ShaUnit.Unit.WriteDbl: a DBL without a finished block held would feed whatever the shift register holds; the driver never does it.
- ShaUnit.Unit.WriteDin: a word written while the core is busy is dropped or taken for the next block, depending on the clock it comes at; the driver waits for DONE.
- ShaCore.Core.Clock: W0..W14 and A0..E2 are sequences rather than single registers, `busy` is not modelled since nothing reads it, and reset is the constructor.
- Miner.CopyTo: `memcpy` appears in the firmware's methods as a copy of a byte sequence; `Memcpy.Copy` proves the real one over a memory.
- The fields of `struct mm_work` other than the coinbase and header buffers are sequences, reassigned as a whole.
- The hash unit's registers are reached by bus cycles with any idle clocks before each; pipelined or aborted bus cycles are not modelled.
- Twi: the timings are those of the parameter value 1; the read without acknowledge, which the firmware does not use, is stepped but nothing is proved of it; the slave's acknowledge is not looked at, as in the firmware.
- Printf: `m_sprintf`'s format strings are not parsed; widths and flags are parameters, and `-i` of the smallest integer is taken to wrap.
- `sha256_precalc` is modelled although the firmware does not call it; bus arbitration, block RAM and clock generation are not modelled.
