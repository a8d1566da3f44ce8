# Models of the educational PCIe devices

This project models the AES-CBC engine and the descriptor-ring DMA engine of the `edu-pci` device,
the `edu-nvme` controller, and the host halves of the ring and NVMe protocols, and proves what
they promise each other. `dafny verify dfyconfig.toml` checks all of it.

| file | part |
|---|---|
| Bytes, Numbers, Modular, GuestMemory | little-endian layouts, words and masks as numbers, positions on a ring, guest memory behind an IOMMU and the bus |
| Gf256, AesTables, Aes, KeySchedule | FIPS 197 as mathematics: the field, the substitutions, the cipher and its inverse, key expansion |
| AesEngine, AesBytes, Cbc | the source's in-place AES and CBC loops, proved to compute that mathematics; cipher and key schedule byte by byte |
| CryptoDevice, CryptoRegisters, CryptoRuns, CryptoHost | the BAR5 engine, its registers by offset and number, its runs of register writes, its test program |
| RingDevice, RingRegisters, RingRuns, RingFifo, RingBatch | the BAR4 engine, a turn and the registers in bytes and numbers, drains and doorbells, the shared FIFO, the data |
| RingHost | the ring's host producer |
| NvmeDevice, NvmeRegisters, NvmeQueues, NvmeConsumer, NvmePair, NvmeStore | the controller, a turn and the registers in bytes and numbers, its queue pair, a phase-bit consumer, both queues at work, the block store |
| NvmeHost, NvmeSession, NvmeDriver, NvmeReinit | the NVMe host driver in closed loop with the controller, and what a second `init` does |

Each device appears twice. A class keeps the source's fields and updates them in place
(`CryptoEngine`, `RingEngine`, `NvmeDrive`, the hosts `CryptoDriver`, `RingDriver` and `NvmeController`); every
method ends in the state a transition function on values says. The laws are lemmas about those
functions, over all states or all runs. What the functions are in terms of offsets, numbers and
bytes is stated without them in `AesBytes`, `CryptoRegisters`, `RingRegisters` and `NvmeRegisters`. `World` values carry the history of completed work, which
the classes keep in ghost fields.

DMA is a memory with the addresses the IOMMU grants for reading and for writing. A transfer
succeeds when all of its range is granted; a failed write stores what it is granted, a failed read
delivers the granted bytes and whatever floats on the bus for the others.

A transfer of the NVMe controller that passes its range test from outside the store sets the flag
`fault` of the world. From then on the model says nothing about the program; the results on the
store say so in their contracts, and those on queues and hosts are to be read with it.

## What the source demands of its callers

* A ring doorbell divides by the ring size (`qemu_devices/edu_pci.c:687`), so the size must have
  been set: `RingEngine.WriteRegister` requires it for that register only.
* The submission loop does not end unless the tail is below the queue size or already at the head
  (`qemu_devices/edu_nvme.c:189-201`): `NvmeDrive.WriteRegister` requires it of a doorbell, and
  `DrainEndsExactly` shows the condition is exact.
* The device never looks at `cq_head` (`qemu_devices/edu_nvme.c:273-276`), so the host must bound
  its unread completions; `OverrunBlinds` shows what one too many does.

## Where the code departs from its documentation or from the standard

* `CRYPTO_LEN` is documented as a multiple of 16 (`README.md:70`, `qemu_devices/edu_pci.c:153`).
  The code clamps to 4096 first, so every length above 4096 is accepted and cut
  (`CommandAccepted`).
* A ring descriptor is marked COMPLETE without a look at the result of the destination write
  (`qemu_devices/edu_pci.c:594-595`); `DeliveredExactly` gives the exact condition for the data to
  be there, `CompleteUndelivered` an instance where it is not.
* The phase is put at bit 8 of the status halfword (`qemu_devices/edu_nvme.c:165`). Section 4.6 of
  the NVMe Base Specification 1.4 has it at bit 16 of dword 3, which is bit 0 of that halfword. The
  model and the consumer follow the code; the host driver does not look at the phase at all.
* The completion queue size is the unmasked upper half of AQA (`qemu_devices/edu_nvme.c:173`). With
  0xFFFF there the 16-bit tail wraps unseen and the phase never changes (`PhaseProtocolExactly`).
* The range test adds in 64 bits (`qemu_devices/edu_nvme.c:132`, `:148`) and can be passed from
  outside the store (`RangeTestExactly`).
* `write_data` and `read_data` take a 64-bit block address and pass its low 32 bits
  (`tests/nvme/test_nvme.cpp:296`, `:314`), so addresses alias modulo 2^32 (`AddressLawExactly`,
  `AliasedWriteComesBack`).
* `init` restarts the device's indices and not the host's. `SecondInitExactly` says when the next
  exchange is harmed, `AfterSecondInit` what it does, `SecondInitReplaysWrite` is an instance.

## Model

| member | source | states |
|---|---|---|
| `Gf256.MulIsDoublings` | qemu_devices/edu_pci.c:221-224 | Multiplication of polynomials modulo x^8+x^4+x^3+x+1 (FIPS 197, section 4.2: product of 15 coefficients, then reduction) equals adding up repeated `xtime`, for every pair of bytes |
| `Gf256.XtimeLinear` | qemu_devices/edu_pci.c:221-224 | `xtime(a^b)` is `xtime(a)^xtime(b)` |
| `AesTables.XtimeIsMul` | qemu_devices/edu_pci.c:221-224 | `xtime` is multiplication by {02} |
| `AesTables.AffineBits` | qemu_devices/edu_pci.c:177-194 | The affine map behind the table is, bit for bit, equation (5.1) of FIPS 197 |
| `AesTables.SboxIsSubByte` | qemu_devices/edu_pci.c:177-194 | Every entry of the table is the inverse in GF(2^8) followed by the affine map (section 5.1.1) |
| `AesTables.InvSboxIsInvSubByte` | qemu_devices/edu_pci.c:197-214 | Every entry of the inverse table is the inverse affine map followed by the inverse in GF(2^8) (section 5.3.2) |
| `AesTables.SubByteInverts` | qemu_devices/edu_pci.c:177-214 | The two substitutions undo each other, one way |
| `AesTables.InvSubByteInverts` | qemu_devices/edu_pci.c:177-214 | and the other |
| `AesTables.RconIsPower` | qemu_devices/edu_pci.c:217-219 | Table entry i-1 is {02} to the power i-1 in the field, for the ten entries |
| `Aes.WordProductAssociates` | qemu_devices/edu_pci.c:261-313 | Multiplication of columns by four-term polynomials (section 4.3) is associative, for all columns |
| `Aes.MixInverts` | qemu_devices/edu_pci.c:261-313 | The fixed polynomials of MixColumns and InvMixColumns undo each other on every column |
| `Aes.SubBytesInverts` | qemu_devices/edu_pci.c:254-298 | SubBytes and InvSubBytes undo each other on every state |
| `Aes.ShiftRowsInverts` | qemu_devices/edu_pci.c:257-296 | ShiftRows and InvShiftRows undo each other on every state |
| `Aes.MixColumnsInverts` | qemu_devices/edu_pci.c:261-313 | MixColumns and InvMixColumns undo each other on every state |
| `Aes.RoundsInvert` | qemu_devices/edu_pci.c:252-314 | The n descending inverse rounds undo the n ascending rounds, paired from the inside |
| `Aes.InvRoundsInvert` | qemu_devices/edu_pci.c:252-314 | and the other way round |
| `Aes.DecipherEncipher` | qemu_devices/edu_pci.c:245-324 | InvCipher undoes Cipher for every 176-byte schedule, expanded from a key or not, and every block |
| `Aes.EncipherDecipher` | qemu_devices/edu_pci.c:245-324 | Cipher undoes InvCipher likewise |
| `KeySchedule.ExpansionRecurrence` | qemu_devices/edu_pci.c:227-242 | The schedule starts with the key and obeys the recurrence of section 5.2, word by word, for all 44 words; ExpansionExactly has it in bytes |
| `KeySchedule.ExpansionReversible` | qemu_devices/edu_pci.c:227-242 | Two keys that agree on the 16 bytes of any one round key are equal, and so are their whole schedules |
| `AesBytes.ExpansionExactly` | qemu_devices/edu_pci.c:227-242 | A schedule is the expansion of a key if and only if its first 16 bytes are the key and every later word i obeys the byte equations: for i a multiple of 4, byte 4i is byte 4i-16 plus the table entry of byte 4i-3 plus the round constant, byte 4i+1 is 4i-15 plus the entry of 4i-2, 4i+2 is 4i-14 plus the entry of 4i-1, 4i+3 is 4i-13 plus the entry of 4i-4; else byte 4i+j is byte 4i-16+j plus byte 4i-4+j |
| `AesBytes.RoundBytes` | qemu_devices/edu_pci.c:252-271 | Every byte of every round from the bytes of the state before, by explicit position: substituted bytes 4c, 4c+5, 4c+10 and 4c+15 modulo 16, weighted {02}, {03}, {01}, {01} in their four turns, plus the round key byte |
| `AesBytes.InvRoundBytes` | qemu_devices/edu_pci.c:292-314 | Likewise for every inverse round: bytes 4c, 4c+13, 4c+10 and 4c+7 modulo 16 substituted back, the round key bytes added, then weighted {0e}, {0b}, {0d}, {09} in their four turns |
| `AesBytes.CipherExactly` | qemu_devices/edu_pci.c:245-282 | For every schedule and block, t is the Cipher if and only if eleven states lead to it by byte equations: round key 0 added, nine rounds as in RoundBytes with keys 1 to 9, a last one without mixing with key 10 |
| `AesBytes.InvCipherExactly` | qemu_devices/edu_pci.c:285-324 | Likewise the InvCipher: round key 10 added, nine inverse rounds with keys 9 down to 1, a last one without mixing with key 0 |
| `AesEngine.AddRoundKey` | qemu_devices/edu_pci.c:270 | In place: the state becomes its sum with round key r |
| `AesEngine.SubstituteBytes` | qemu_devices/edu_pci.c:254 | In place, through the table: SubBytes |
| `AesEngine.InvSubstituteBytes` | qemu_devices/edu_pci.c:298 | In place, through the inverse table: InvSubBytes |
| `AesEngine.RotateRows` | qemu_devices/edu_pci.c:257-259 | The assignments on the 16-byte state are ShiftRows |
| `AesEngine.UnrotateRows` | qemu_devices/edu_pci.c:294-296 | The assignments of the decryptor are InvShiftRows |
| `AesEngine.MixedColumnIsProduct` | qemu_devices/edu_pci.c:263-267 | The encryptor's hand-expanded column formulas multiply the column by {03}x^3+{01}x^2+{01}x+{02} |
| `AesEngine.UnmixedColumnIsProduct` | qemu_devices/edu_pci.c:304-312 | The decryptor's formulas over doubled, quadrupled and octupled bytes multiply it by {0b}x^3+{0d}x^2+{09}x+{0e} |
| `AesEngine.MixBlock` | qemu_devices/edu_pci.c:261-268 | The column loop computes MixColumns in place |
| `AesEngine.UnmixBlock` | qemu_devices/edu_pci.c:302-313 | The column loop of the decryptor computes InvMixColumns in place |
| `AesEngine.EncryptRounds` | qemu_devices/edu_pci.c:252-279 | The round loop and the final round compute rounds 1 to 10 of the Cipher, whose bytes RoundBytes and CipherExactly give |
| `AesEngine.DecryptRounds` | qemu_devices/edu_pci.c:292-321 | The descending loop and the final round compute the InvCipher's rounds, whose bytes InvRoundBytes and InvCipherExactly give |
| `AesEngine.EncryptBlock` | qemu_devices/edu_pci.c:245-282 | `aes_encrypt_block` computes the Cipher of section 5.1 (CipherExactly) into its 16 output bytes and leaves the others, also when input and output are one buffer |
| `AesEngine.DecryptBlock` | qemu_devices/edu_pci.c:285-324 | `aes_decrypt_block` computes the InvCipher of section 5.3 (InvCipherExactly) into its 16 output bytes and leaves the others, also in place |
| `AesEngine.ExpandWord` | qemu_devices/edu_pci.c:229-241 | One turn of the expansion loop makes word i by the recurrence, the byte equations of ExpansionExactly, and leaves the words before it |
| `AesEngine.ExpandKey` | qemu_devices/edu_pci.c:227-242 | `aes_key_expand` fills the array with the KeyExpansion of section 5.2, which ExpansionExactly gives byte by byte |
| `Cbc.DecryptEncrypt` | qemu_devices/edu_pci.c:327-350 | CBC decryption restores what CBC encryption was given, for every schedule, vector and whole number of blocks |
| `Cbc.EncryptDecrypt` | qemu_devices/edu_pci.c:327-350 | CBC encryption restores what decryption was given |
| `Cbc.EncryptBijective` | qemu_devices/edu_pci.c:327-350 | Under one schedule and vector c is the encryption of p exactly when p is the decryption of c |
| `Cbc.EncryptBlocks` | qemu_devices/edu_pci.c:331-336 | Ciphertext block i is the cipher of plaintext block i added to ciphertext block i-1, or the vector |
| `Cbc.DecryptBlocks` | qemu_devices/edu_pci.c:344-349 | Plaintext block i is the inverse cipher of block i added to block i-1, or the vector |
| `Cbc.DecryptLocality` | qemu_devices/edu_pci.c:344-349 | Ciphertexts that differ in block j only decrypt alike but for blocks j and j+1; block j does change, and block j+1 by exactly the difference |
| `Cbc.EncryptChunks` | qemu_devices/edu_pci.c:331-336 | Encrypting a concatenation is encrypting its parts, the second with the last ciphertext block of the first as vector |
| `Cbc.DecryptChunks` | qemu_devices/edu_pci.c:344-349 | The same for decryption |
| `Cbc.EncryptBuffer` | qemu_devices/edu_pci.c:327-337 | `aes_cbc_encrypt` writes the CBC encryption of the first `len` bytes and leaves the rest of its output, also in place |
| `Cbc.DecryptBuffer` | qemu_devices/edu_pci.c:340-350 | `aes_cbc_decrypt` writes the CBC decryption of the first `len` bytes into another buffer and leaves the rest |
| `CryptoDevice.CryptoEngine.Start` | qemu_devices/edu_pci.c:769-809 | A started command: nothing at all for a length that is not whole blocks after clamping, else source bytes through CBC to the destination and one vector 2 if MSI-X is on |
| `CryptoDevice.CryptoEngine.WriteKey` | qemu_devices/edu_pci.c:811-822 | A key word is stored, and the schedule recomputed only if it is the last word |
| `CryptoDevice.CryptoEngine.WriteRegister` | qemu_devices/edu_pci.c:746-831 | Each aligned 32-bit write does to registers, memory and interrupts what the transition function says; CommandByNumber, AddressWrites, KeyWordBytes, IvWordBytes and OtherWrites have that by offset and number |
| `CryptoRuns.CommandAccepted` | qemu_devices/edu_pci.c:769-809 | A command on a length that is a multiple of 16 or above 4096, and no other, converts the source, cut to 4096 bytes, into a mapped destination, changes no byte elsewhere and raises vector 2; any other changes nothing |
| `CryptoRegisters.CommandByNumber` | qemu_devices/edu_pci.c:769-809 | A write of k to offset 0x1C: nothing for k even, on a busy engine, or for a length that is no multiple of 16 after the cut to 4096; else vector 2 is raised, memory outside the destination stays, and a mapped destination holds the CBC encryption of the source under schedule and vector for k = 3 modulo 4, its CBC decryption for k = 1 modulo 4 |
| `CryptoRegisters.AddressWrites` | qemu_devices/edu_pci.c:754-768 | Offsets 0x08 to 0x18 set the low and high words of source and destination and the length, each its own and nothing else |
| `CryptoRegisters.OtherWrites` | qemu_devices/edu_pci.c:811-829 | No aligned offset below 0x08 or from 0x40 on does anything |
| `CryptoRegisters.KeyWordBytes` | qemu_devices/edu_pci.c:811-822 | Key word i, at 0x20+4i, takes the number written as four bytes, low byte first, and leaves the other twelve; the schedule becomes the expansion with word 3 and stays with the others |
| `CryptoRegisters.IvWordBytes` | qemu_devices/edu_pci.c:823-829 | Vector word i, at 0x30+4i, likewise |
| `CryptoRuns.LongCommandIsCut` | qemu_devices/edu_pci.c:777-782 | Length 4097, no multiple of 16, is accepted and its last byte left out |
| `CryptoRuns.QuietWrites` | qemu_devices/edu_pci.c:754-768 | No sequence of writes to other registers changes key, vector, schedule, memory or the interrupt trace |
| `CryptoRuns.ThereAndBack` | qemu_devices/edu_pci.c:769-809 | A command and then the opposite command on its result restore the original bytes, for any overlap of source and destinations and any quiet writes in between, when both destinations are mapped |
| `CryptoRuns.ScheduleLatched` | qemu_devices/edu_pci.c:811-829 | In every run the schedule is the expansion of the key as it stood at the latest write of the last key word; it fits the present key exactly when that is the same key |
| `CryptoRuns.KeyLoaded` | tests/vfio/test_crypto.cpp:206-216 | The four ascending writes of `set_key` load the key and its schedule, which stays through any writes but of the last key word |
| `CryptoRegisters.IvLoaded` | tests/vfio/test_crypto.cpp:218-227 | The four ascending writes of `set_iv` load the vector, which stays through any writes outside 0x30 to 0x3F |
| `CryptoHost.JobOutcome` | tests/vfio/test_crypto.cpp:229-283 | One job of the host from any state of an idle engine: buffers loaded, address and length registers set, command 3 or 1; the destination page receives the text through CBC and vector 2 is raised, for whole blocks and no other length |
| `CryptoHost.CryptoDriver.SetKey` | tests/vfio/test_crypto.cpp:206-216 | The loop of `set_key` loads key and schedule and changes nothing else |
| `CryptoHost.CryptoDriver.SetIv` | tests/vfio/test_crypto.cpp:218-227 | The loop of `set_iv` loads the vector and changes nothing else |
| `CryptoHost.CryptoDriver.Run` | tests/vfio/test_crypto.cpp:229-283 | `encrypt` and `decrypt` in sequence of stores, register writes and the wait: the state of JobOutcome, and success exactly when the interrupt came |
| `CryptoHost.CryptoDriver.TestEncryptDecrypt` | tests/vfio/test_crypto.cpp:285-338 | The whole test for any key, vector and text up to a page: it succeeds if and only if interrupts are on and the text is whole blocks; then it has seen the CBC encryption of the text under the expanded key, the decryption gave the text back, and vector 2 was raised twice |
| `GuestMemory.ReadBytes` | qemu_devices/edu_pci.c:556-568 | Each byte of a DMA read is the memory byte where it exists and is granted, else what floats on the bus; the read fails if one is missing |
| `GuestMemory.WrittenCells` | qemu_devices/edu_pci.c:587-596 | A DMA write changes exactly the granted cells of its range; it fails if one is missing |
| `RingDevice.DecodeEncode` | qemu_devices/edu_pci.c:131-141 | The 32-byte descriptor layout loses no field |
| `RingDevice.RingEngine.ProcessOneDescriptor` | qemu_devices/edu_pci.c:548-610 | One descriptor: stall, or transfer, status word, head, interrupt, in that order; TurnByBytes has it in the bytes of the slot |
| `RingRegisters.SlotFields` | qemu_devices/edu_pci.c:131-141 | Source, destination, length and status of a slot are the numbers of its bytes 0-7, 8-15, 16-19 (cut to 4096) and 24-27, low byte first; byte 20 says valid if odd and interrupt wanted if its remainder by 4 is 2 or 3 |
| `RingRegisters.TurnByBytes` | qemu_devices/edu_pci.c:548-610 | A turn changes nothing if and only if the 32 bytes at address + 32 head cannot be read or byte 20 is even; else the source bytes go to the destination if all can be read, bytes 24-27 become 1,0,0,0 or 2,0,0,0 accordingly, the head moves on modulo the size, and vector 1 is raised if asked for |
| `RingDevice.RingEngine.ProcessRing` | qemu_devices/edu_pci.c:613-631 | The capped loop computes the drain function |
| `RingDevice.RingEngine.WriteRegister` | qemu_devices/edu_pci.c:656-701 | Each register write, with the size test, the doorbell's remainder and the drains it starts |
| `RingRegisters.AddressWrites` | qemu_devices/edu_pci.c:664-673 | Offsets 0x08 and 0x0C set the low and high word of the ring address, each its own |
| `RingRegisters.ControlWrites` | qemu_devices/edu_pci.c:674-701 | By offset and number: 0x10 takes exactly 1, 2, 4, ..., 256 and empties the ring; 0x18 sets the tail to the value modulo the size and drains an enabled ring; 0x1C enables exactly for odd values and drains a ring that is not empty; other offsets do nothing |
| `RingRuns.AcceptableSizes` | qemu_devices/edu_pci.c:674-684 | Ring sizes are accepted exactly when they are 1, 2, 4, ..., 256 |
| `RingRuns.DrainAdvances` | qemu_devices/edu_pci.c:623-628 | The cap on the loop never cuts a drain short: the drain makes exactly (tail-head) mod size calls |
| `RingRuns.ProcessExact` | qemu_devices/edu_pci.c:613-631 | A drain consumes k pending descriptors and moves the head by k; it stops early exactly at a stalled slot, where draining again changes nothing, and without a stall ends with head equal to tail |
| `RingRuns.DoorbellsCoalesce` | qemu_devices/edu_pci.c:685-692 | Ringing t1 and then t2, with t1 not beyond t2 as seen from the head, leaves the same registers, memory and interrupts as ringing t2, stalls included |
| `RingRuns.DoorbellsAmountToLast` | qemu_devices/edu_pci.c:685-692 | Any number of doorbells that only move forward amounts to the last |
| `RingRuns.EnableAfterDoorbell` | qemu_devices/edu_pci.c:685-699 | A doorbell that moves the tail forward and then enable is enable and then that doorbell |
| `RingFifo.SlotsAfterTurn` | qemu_devices/edu_pci.c:548-610 | A turn writes the status field of its own slot and changes no other slot |
| `RingFifo.TurnKeeps` | qemu_devices/edu_pci.c:598-609 | Every turn keeps the ring invariant: registers are residues of unbounded counters, pending slots as posted, history in order, statuses standing, interrupts counted |
| `RingFifo.NotificationFinds` | qemu_devices/edu_pci.c:598-609 | A vector 1 comes for the descriptor of its own turn, and by then every descriptor consumed so far whose slot is not reused shows COMPLETE or ERROR |
| `RingFifo.RingIsFifo` | qemu_devices/edu_pci.c:548-701 | In every run of posts, doorbells, enables, disables and other work in memory: completions are a prefix of posts, in order and each once; completed plus pending is what was announced; an enabled engine stops short only at a descriptor posted with an even flags word; vector 1 was raised once per completed descriptor whose flags ask for it |
| `RingBatch.StatusMeaning` | qemu_devices/edu_pci.c:584-600 | A turn ends in COMPLETE if and only if the source could be read and in ERROR if and only if not; an ERROR leaves its destination, and all memory but the status word, unwritten |
| `RingBatch.DeliveredExactly` | qemu_devices/edu_pci.c:587-596 | A COMPLETE descriptor has delivered its bytes if and only if each destination byte could be written or was right already |
| `RingBatch.CompleteUndelivered` | qemu_devices/edu_pci.c:587-596 | A concrete mapped ring, with both buffers clear of it, on which a descriptor is marked COMPLETE and its byte did not arrive |
| `RingBatch.BatchCompletes` | qemu_devices/edu_pci.c:613-631 | On an idle enabled ring one doorbell for up to size-1 valid descriptors with separate buffers delivers every one, marks it COMPLETE, raises what was asked and ends with head equal to tail, from any head |
| `RingBatch.FullLapDoesNothing` | tests/vfio/test_ring_dma.cpp:365-369 | Announcing a full lap rings the bell at the head and changes nothing |
| `RingHost.RingDriver.SetupRing` | tests/vfio/test_ring_dma.cpp:233-237 | The register writes of `setup_ring` leave a ring of 16 at its address, enabled and empty, whatever was there before |
| `RingHost.RingDriver.PostJobs` | tests/vfio/test_ring_dma.cpp:337-360 | The filling loop posts every job, source text and descriptor, without disturbing the earlier ones |
| `RingHost.RingDriver.RunBatch` | tests/vfio/test_ring_dma.cpp:323-397 | The batch test for any number of jobs from any head: up to 15 all come through with one interrupt and head equal to tail, 16 do nothing; in each case the ring is idle and mapped again, ready for the next batch |
| `RingHost.BatchesComeThrough` | tests/vfio/test_ring_dma.cpp:323-397 | Any number of batches of up to 15 jobs one after another, past any number of wraps: each comes through in its turn, the head stands after the last job, and every batch that had jobs raised vector 1 once |
| `RingHost.RingDriver.RunTests` | tests/vfio/test_ring_dma.cpp:194-398 | Set-up, the single-descriptor test and a batch in sequence, as the program runs them: both come through, with one interrupt each |
| `NvmeDevice.DecodeEncodeCommand` | qemu_devices/edu_nvme.c:46-61 | The 64-byte command layout loses no field |
| `NvmeDevice.CqeLayout` | qemu_devices/edu_nvme.c:63-70 | Every field of a completion entry can be read back at its offset; result, reserved field and queue identifier are zero |
| `NvmeDevice.QueueSizes` | qemu_devices/edu_nvme.c:173-187 | The submission queue has aqa % 4096 + 1 slots and the completion queue aqa / 65536 + 1, for every AQA as a number |
| `NvmeDevice.BlockCounts` | qemu_devices/edu_nvme.c:129-145 | A transfer moves cdw12 % 65536 + 1 blocks |
| `NvmeRegisters.SlotFields` | qemu_devices/edu_nvme.c:46-61 | Opcode, identifier, buffer, block address and block count of a command are byte 0, bytes 2-3, 24-31, 40-47 and 48-49 (plus one) of its slot, low byte first |
| `NvmeRegisters.TurnByBytes` | qemu_devices/edu_nvme.c:96-202 | One turn of the submission loop in the 64 bytes of the slot at the head: opcode 6, 2 or 1 and no other moves the identify page, blocks of 512 bytes out, or blocks in, within 2048 blocks; the 16 bytes posted hold head, identifier, status 0, 1, 0x8002 or 0x8004 and phase at their places; head, tail and phase step round sizes aqa % 4096 + 1 and aqa / 65536 + 1; vector 0 is raised |
| `NvmeRegisters.IdentifyDelivers` | qemu_devices/edu_nvme.c:107-126 | IDENTIFY into a granted buffer delivers the page: vendor 0x1234, the two texts, transfer limit 5, one namespace, zeros elsewhere |
| `NvmeDevice.NvmeDrive.Execute` | qemu_devices/edu_nvme.c:107-162 | The switch on the opcode: data moved, block store and status for each opcode and error; TurnByBytes has it in bytes |
| `NvmeDevice.NvmeDrive.PostCompletion` | qemu_devices/edu_nvme.c:164-181 | Completion entry at the tail slot, 16-bit tail, phase flip, interrupt |
| `NvmeDevice.NvmeDrive.ProcessSq` | qemu_devices/edu_nvme.c:184-202 | The submission loop, from a state in which it ends, computes the drain function, of which DrainComplete and DrainOrdered say what it runs |
| `NvmeDevice.NvmeDrive.WriteRegister` | qemu_devices/edu_nvme.c:236-278 | Each 32-bit register write, including restart on enable and the doorbell |
| `NvmeRegisters.AddressWrites` | qemu_devices/edu_nvme.c:256-267 | Offsets 0x28 to 0x34 set the low and high words of the two queue addresses, each its own |
| `NvmeRegisters.QueueWrites` | qemu_devices/edu_nvme.c:253-276 | Offset 0x24 sets the sizes, 0x1004 the completion head modulo 2^16; offsets without a register do nothing |
| `NvmeRegisters.ConfigurationWrite` | qemu_devices/edu_nvme.c:242-252 | An odd value at 0x14 sets the ready bit and restarts both queues with phase 1; an even one clears the ready bit and leaves the queues where they are |
| `NvmeRegisters.DoorbellWrite` | qemu_devices/edu_nvme.c:268-272 | A value at 0x1000 is the tail modulo 2^16 and starts the drain |
| `NvmeQueues.DrainEndsExactly` | qemu_devices/edu_nvme.c:189-201 | The submission loop ends if and only if the head stands at the tail already or the tail lies below the queue size |
| `NvmeQueues.DrainOrdered` | qemu_devices/edu_nvme.c:189-201 | Turn by turn, the loop fetches the slots in ring order and logs one completion each, with the command's own identifier and slot |
| `NvmeQueues.DrainComplete` | qemu_devices/edu_nvme.c:189-201 | With aqa % 4096 + 1 submission slots, whatever the size of the other queue, a drain that ends runs one command for each slot from head to tail round the ring (1 + tail from a head that a smaller size has left outside), taken from those slots in order, and leaves head equal to tail |
| `NvmeQueues.SixteenOfSixtyFour` | qemu_devices/edu_nvme.c:184-202 | An instance with different sizes, 16 and 64: from head 15 the doorbell for tail 1 runs the commands of slots 15 and 0 |
| `NvmeQueues.TailIsSlot` | qemu_devices/edu_nvme.c:171-176 | Completion n goes to slot n mod size |
| `NvmeQueues.PhaseFollowsLap` | qemu_devices/edu_nvme.c:164-176 | Completion n carries phase 1 on even laps and 0 on odd laps |
| `NvmeQueues.PhaseProtocolExactly` | qemu_devices/edu_nvme.c:171-176 | The phase follows the laps for ever if and only if the unmasked size field is not 0xFFFF; with 0xFFFF it stays 1 |
| `NvmeConsumer.PhaseShows` | qemu_devices/edu_nvme.c:164-165 | Bit 8 of the status shows the phase whatever the status code |
| `NvmeConsumer.EntriesAfter` | qemu_devices/edu_nvme.c:167-169 | A command leaves its completion at the tail slot and every other slot as it was |
| `NvmeConsumer.FreshExactly` | qemu_devices/edu_nvme.c:164-176 | The phase at the consumer's head is the one its lap calls for if and only if a completion is unread, and then that is the next one |
| `NvmeConsumer.OverrunBlinds` | qemu_devices/edu_nvme.c:164-176 | With a full queue unread, one more completion overwrites the oldest unread one and leaves the consumer seeing nothing |
| `NvmeConsumer.ConsumerSeesEachOnce` | qemu_devices/edu_nvme.c:164-176 | From enable on zeroed memory, for any commands however they reach the interpreter, with at most a queueful unread, a consumer going by the phase bit alone takes every completion, in order and once, over any number of laps |
| `NvmePair.DoorbellKeeps` | qemu_devices/edu_nvme.c:184-202 | A doorbell for the first count commands runs exactly those not run before, in posting order, and keeps the invariant of both queues |
| `NvmePair.EveryPostAnsweredOnce` | qemu_devices/edu_nvme.c:96-202 | From enable on, with aqa % 4096 + 1 submission and aqa / 65536 + 1 completion slots, in every run of posts, doorbells and looks that keeps to the two sizes, with any number of commands outstanding: the announced commands have been run in posting order, each once; the completions taken are theirs in that order, each with its own command identifier; the phase bit says exactly whether another is there |
| `NvmeStore.RangeTestExactly` | qemu_devices/edu_nvme.c:132-135 | The 64-bit range test passes a command outside the store if and only if lba + nlb lies from 2^64 to 2^64 + 2048 |
| `NvmeStore.RangeTestFooled` | qemu_devices/edu_nvme.c:132-135 | A concrete such command |
| `NvmeStore.WriteReplaces` | qemu_devices/edu_nvme.c:143-157 | A WRITE in the store replaces exactly the blocks from cdw11 * 2^32 + cdw10 on, cdw12 % 65536 + 1 of them, by 512 bytes each of its buffer, touches no memory but its completion slot, and reports success if and only if the whole buffer could be read |
| `NvmeStore.ReadDelivers` | qemu_devices/edu_nvme.c:127-141 | A READ in the store into a granted buffer leaves every block from cdw11 * 2^32 + cdw10 on, cdw12 % 65536 + 1 of them, there |
| `NvmeStore.StoreFollowsHistory` | qemu_devices/edu_nvme.c:143-157 | In every run of register writes and memory changes whose doorbells return, as long as no command has strayed past the range test, each block holds what the last WRITE over it brought, or its first contents |
| `NvmeStore.ReadDeliversLastWrite` | qemu_devices/edu_nvme.c:127-202 | At any turn of any doorbell that returns, after such a run, with no stray before it, a READ delivers what the last WRITE before it brought, those of the same doorbell included |
| `NvmeHost.InitReaches` | tests/nvme/test_nvme.cpp:224-235 | The register writes of `init` reach one configured state from any state |
| `NvmeReinit.AfterSecondInit` | tests/nvme/test_nvme.cpp:224-267 | The exchange after a second `init`, n exchanges after the first, with k = n mod 16: below 15 it runs the k commands left in the slots before the host's and then the host's own, the entry read answers the host's, and both sides are in step again; at 15 nothing is fetched and no interrupt comes |
| `NvmeReinit.SecondInitExactly` | tests/nvme/test_nvme.cpp:224-267 | After a second `init` exactly the submitted command is run if and only if n is a multiple of 16, and the wait comes back if and only if n mod 16 is not 15 |
| `NvmeReinit.SlotsHoldLast` | tests/nvme/test_nvme.cpp:250-256 | The slots hold the last sixteen commands of a session, which are therefore the ones run again |
| `NvmeReinit.SecondInitReplaysWrite` | tests/nvme/test_nvme.cpp:224-304 | An instance: a write to one address, `init`, a write to another, and the first block ends with the bytes meant for the second |
| `NvmeHost.DoorbellFetchesIt` | tests/nvme/test_nvme.cpp:250-256 | On an idle queue the doorbell for one posted command fetches that command and no other |
| `NvmeHost.ExchangeKeepsStep` | tests/nvme/test_nvme.cpp:250-267 | One submit and wait keep all indices of both sides agreeing, and the entry read answers the command just submitted |
| `NvmeHost.TargetExactly` | tests/nvme/test_nvme.cpp:288-297 | Two 64-bit addresses reach the same block if and only if they agree modulo 2^32 |
| `NvmeHost.BeyondReachesZero` | tests/nvme/test_nvme.cpp:288-297 | Address 2^32, far beyond the store, reaches block 0 |
| `NvmeSession.SuccessExactly` | tests/nvme/test_nvme.cpp:303 | The host's low-byte test of the status tells success from every failure the device reports |
| `NvmeSession.SessionInStep` | tests/nvme/test_nvme.cpp:250-267 | After any number of exchanges, past every wrap, the indices agree and the completions carried the submitted identifiers, consecutive from the host's first, in order |
| `NvmeSession.SessionIdentifiers` | tests/nvme/test_nvme.cpp:250-251 | As numbers the identifiers count up from the host's first, modulo 2^16 |
| `NvmeSession.OpOutcome` | tests/nvme/test_nvme.cpp:288-323 | A write replaces its one block by the data and what the buffer held after it; a read changes no block; both keep the sides in step |
| `NvmeSession.LastPutStands` | tests/nvme/test_nvme.cpp:288-323 | After any writes and reads a block holds what the last write to it brought: its data, then what stood in the buffer behind them |
| `NvmeSession.ReadsLastWrite` | tests/nvme/test_nvme.cpp:288-323 | After any writes and reads, a read returns the bytes (up to 512) last written to its block |
| `NvmeSession.AddressLawExactly` | tests/nvme/test_nvme.cpp:288-323 | Over all 64-bit addresses: a read returns the bytes of a given write to its address if and only if the last write to an address congruent modulo 2^32 brought the same bytes |
| `NvmeSession.AddressesAsBlocks` | tests/nvme/test_nvme.cpp:288-323 | With all addresses below 2^32 the last write to the block is the last write to the address |
| `NvmeSession.AliasedWriteComesBack` | tests/nvme/test_nvme.cpp:288-323 | Otherwise: a write to address 2^32 is what a read of address 0 returns |
| `NvmeDriver.NvmeController.Init` | tests/nvme/test_nvme.cpp:224-248 | `init` returns true, reaches the configured state, and leaves the driver ready if and only if its own queue indices stand at the start; called again on a ready driver, if and only if the exchanges so far are a multiple of 16 |
| `NvmeDriver.NvmeController.SubmitCmd` | tests/nvme/test_nvme.cpp:250-256 | `submit_cmd` stamps the identifier, posts, moves the tail and rings, wherever the device's head stands |
| `NvmeDriver.NvmeController.WaitCompletion` | tests/nvme/test_nvme.cpp:258-267 | `wait_completion` times out if and only if no interrupt is pending; else it returns the entry at the head and acknowledges it |
| `NvmeDriver.NvmeController.Exchange` | tests/nvme/test_nvme.cpp:275-278 | Submit and wait in sequence: in step again, with the answer to this command |
| `NvmeDriver.NvmeController.WriteData` | tests/nvme/test_nvme.cpp:288-304 | `write_data` succeeds if and only if the low address word is below 2048; its effect is that of OpOutcome |
| `NvmeDriver.NvmeController.ReadData` | tests/nvme/test_nvme.cpp:306-323 | `read_data` succeeds under the same condition and returns the block, zeros beyond it, or only zeros on failure |

## Left out

- NvmeDevice.NvmeDrive.Execute: a transfer that passes the 64-bit range test from outside the store is recorded as a fault and moves nothing; what the program reads or overwrites there, low blocks of the store included, is not modelled.
- NvmeDevice.NvmeDrive.ProcessSq: only from states in which the loop ends; elsewhere the program does not return.
- NvmeDevice.NvmeDrive.WriteRegister: 32-bit accesses only; a 64-bit store such as the host's of a queue address counts as two, low half first.
- CryptoDevice.CryptoEngine.WriteRegister: aligned 32-bit accesses only; narrower or straddling writes into key and vector are not modelled.
- CryptoDevice.CryptoEngine.Start: bytes a failed DMA read does not deliver come from the bus, where the program leaves uninitialised stack bytes.
- RingDevice.RingEngine.WriteRegister: a doorbell before any size has been set, a division by zero in the program, is excluded.
- NvmeSession.ReadsLastWrite: speaks of the block an address reaches, not of the 64-bit address, for which the law is false; AddressLawExactly has the exact condition.
- NvmeDriver.NvmeController.Init: the ready bit is read once where the program polls, since the device sets it in the enabling write.
- NvmePair.EveryPostAnsweredOnce: the queues' address and size registers are left alone since enable, and data buffers stay clear of both queues.
- NvmeConsumer.ConsumerSeesEachOnce: commands are handed over one by one; EveryPostAnsweredOnce has the doorbells.
- NvmeReinit.AfterSecondInit: for commands whose data stay off the queue pages, as those of `write_data` and `read_data` do.
- RingHost.RingDriver.RunBatch: the test's waiting for the interrupt is left out; the interrupt trace says what it would see.
- CryptoHost.CryptoDriver.Run: the wait is whether the interrupt trace grew; time-outs by delay are not modelled.
- Host driver operations in C++ classes other than the three hosts above, among them `identify`: they would repeat the same exchange.
- Register reads, identification values and debug output: single lookups.
- BAR0 (simple DMA, scratch, factorial, peer-to-peer and ATS registers), SR-IOV virtual functions, reset, MSI-X tables and object plumbing: simple or calls into libraries not shown. MSI-X is an enabled flag and a trace of vectors.
- DMA that hits the device's own registers, changes of IOMMU grants during a transfer, and DMA buffers of the crypto engine or ring that reach beyond guest memory other than as ungranted addresses.
- Concurrency: a register write and the work it starts are one step; memory barriers and timing are not modelled.
- USB devices, the kernel driver, scripts, and the VFIO, epoll and mmap set-up of the tests: I/O plumbing.
