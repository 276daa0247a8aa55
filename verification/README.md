# A model of a video system on a chip, and what it guarantees

The repository simulates two chips that encode, encrypt, send and decrypt video over a shared bus. This project models
its computing core in Dafny and proves what that core is for:

* **AES-128 and CBC** (`Gf.dfy`, `SBox.dfy`, `AesSpec.dfy`, `KeySchedule.dfy`, `AesBytes.dfy`, `Cbc.dfy`, `Aes.dfy`,
  `AesCalls.dfy`, `Crypto.dfy`): the in-place code over the 4x4 state, the 176 byte key array and the moving `Iv` pointer
  refines FIPS 197 and section 6.2 of NIST SP 800-38A, for every key, vector and length; the cipher and the key schedule
  are given byte by byte as well, from the table, the field product and literal places; decryption undoes encryption, as
  two calls on buffers and up to the words that the crypto block writes back to memory.
* **The shared bus** (`Bus.dfy` and the other `Bus*.dfy` files): any number of masters, one arbiter with a FIFO, devices
  and a memory, as a step system in which a notification wakes only the processes that wait at that moment and the
  scheduler may pick any runnable process. One inductive invariant over all interleavings gives exclusive transfers,
  exact delivery, service in FIFO order, linearizability of the memory address by address, no lost wake-ups, no deadlock,
  and a bound on the number of steps until a request has been served. The traffic for which all this can be relied on is
  characterised exactly.
* **The NAL splitter** (`Splitter.dfy`, `Underruns.dfy`, `Streams.dfy`, `Encoder.dfy`): the nested scanning loops of
  `new_frame` refine a declarative splitter, and on streams of clean units the frames are exactly the units, none lost and
  none repeated; when the code leaves its buffer, above or below, is characterised exactly.
* **The ECIES container** (`Secure.dfy`, `Ecies.dfy`): layout, two-stage padded encryption, authentication and round
  trip, with the primitives of the cryptographic library as parameters.

`dafny verify dfyconfig.toml` checks the whole project.

## How the model is built

*AES.* The static variables of `aes.cpp` are the fields of `Aes.Context`; a `uint8_t*` is a `Ptr`, an array and an
offset, so that `Iv = output` and `Iv = input` are assignments of pointers and the loops move them. Bytes are `bv8`;
byte 4 * i + j of a block is `state[i][j]`. The S-box tables are written as binary decision trees over the index bits
with the table's entries as leaves. `Gf.Add` is the exclusive or. Long loop bodies are methods of their own. Key and
vector may be null, as in the code: then the values of the call before are used (`Aes.Context.EffectiveIv`). `length`
may be any number; the remainder branch, which re-encrypts behind the data the loop has covered already, is part of the
model. Input and output may be the same window, or two windows with no byte in common, in one array or in two
(`Aes.Placed`). The functions the methods refine are pinned down without their own names: `AesBytes.CipherBytes` and
`AesBytes.ExpandedKeyBytes` by byte, `Cbc.EncryptedBlock` and `Crypto.EncryptedWordBlocks` by block, and an inverse is
determined by what it undoes.

*The bus.* `Bus.Bus` is the object with its four fields; each of its methods is one piece of a method of the source
between two waits, and is specified by a function on the fields. `BusMachine.Machine` is the code of the processes
between two waits: it calls those methods, updates the memory's array and the places where the processes wait, and each
of its methods is proved to do what `BusSystem` says. `BusSystem` is that step system on values, which the theorems are
about: `ArbiterStep` follows `testSysC/Project.cpp:72-90`, `MasterStep` follows `testSysC/Project.cpp:92-127` and
`testSysC/Master.cpp:12-40`, `SlaveStep` follows `testSysC/Project.cpp:130-165` and `testSysC/memory.cpp:7-41`. A device
sends words of its choice, moves a number of words of its own for a request (`Config.words`), as the loops of the crypto
block, the encoder and the card do, and may be busy after a transfer; the memory listens again at once. Timed waits end
when no process is runnable, any non-empty set of them together, so that no cycle time is assumed. `History` records
pushes, grants, the words on the bus, ends and returns; no step depends on it. `BusMemory.MemoryByAddress` states what the
memory holds and what reads return by addresses alone: the word last written there.

The conditions under which the theorems hold are explicit. A transfer has at least one word, its end address does not
wrap around, and the slave that answers it moves as many words as it names (`BusSystem.Legal`); address ranges are
disjoint and the memory moves what is asked for (`BusSystem.Config.Valid`); master identifiers are the indices of the
masters, so they are distinct, and a master has one call at a time. A run keeps to the discipline if the arbiter takes a
request only when no master still has to look at the answer to an earlier one (`BusSystem.Disciplined`).
`BusHazards.NobodyLostIffDisciplined` shows that this is exactly what keeps calls from being lost, in every run;
`BusHazards.AnsweredRunIsGood` and `BusHazards.PromptRunIsGood` show when it holds by itself: for traffic to slaves that
listen again without a wait, as the memory, the crypto block and the encoder do. `BusTraffic.SoundIffServed` is the
exact condition on traffic: no run loses a call or stops the bus if and only if every transfer asked for is claimed by a
slave that moves exactly the words it names. `BusTraffic.ProjectServes` lists these transfers for the project: a read of
the crypto block, for one, is acknowledged and never ends. The discipline does not always hold: after an unanswered
request the arbiter goes from `testSysC/Project.cpp:84` to `:78` without a wait if others are queued, and replaces
`currentReq` before the waiter at `:100-102` can look. An empty queue at that moment is not enough either: a push by
another master before the waiter has run has the same effect. `BusFailures.OvertakenRequest` is a run in which one call
never returns, another is refused although the memory has answered it, and the bus stops.

*The splitter.* The file is a sequence, a position and the end-of-file flag that a failing read sets. `stale` is the
indeterminate value of `cur_byte` before its first assignment, another one for each call; `char` is taken to be signed.
A call that would move `buffer_ptr` below zero, or store behind the buffer, ends the model's run;
`Underruns.SplitUnderruns` and `Encoder.NewFrame` say exactly when.

*Findings where the code and its description differ.* `testSysC/aes.h:9` says that CBC mode handles zero padding: it
does so exactly if the caller has zeroed the bytes behind the message (`Aes.PaddedOnlyByCaller`), which both callers do.
The scanner takes 00 00 followed by 1, 2 or 3 for a separator, so a unit with an emulation prevention byte (section
7.4.1 of ITU-T H.264) is cut (`Streams.EmulationPreventionIsNotClean`). Of the start codes of Annex B only the one of
four bytes is taken off as it should be: the short one costs a byte, further zeros end up in the frame
(`Streams.StartCode`), and a short one at the start of the stream moves the index below zero
(`Underruns.ShortCodeUnderruns`). At the end of the file the last byte is stored twice
(`Streams.LastCallDuplicatesByte`). Encryption in place is encryption, but decryption in place chains each block to the
plaintext before it, because `Iv` points into the buffer that is being overwritten; whatever the vector, it is
decryption exactly for lengths of at most 16 (`Aes.InPlaceForEveryVector`). When a master takes up the answer to its
request while nobody else moves words, the bus stops for good exactly if the request is for no words, or is a read and
its slave has none to send (`BusFailures.ZeroLengthStopsTheBus`, with a run in `BusFailures.NoWordsRun`). The end
address of a request is computed modulo 2^32, and several slaves answer a request of at least one word exactly when it
wraps from the range of one into the range of another below it (`Bus.SeveralAnswerIffWraps`); all four do when it
reaches from the memory into the network card (`Bus.AllFourAnswer`).

## Model

| member | source | states |
|---|---|---|
| `Gf.XtimeAdditive` | testSysC/aes.cpp:280-283 | xtime is additive: doubling a sum is the sum of the doubles |
| `Gf.MultiplyIsMul` | testSysC/aes.cpp:303-310 | for every x and every y below 32, Multiply is the carry-less product reduced modulo x^8 + x^4 + x^3 + x + 1 (section 4.2 of FIPS 197) |
| `Gf.MultiplyDropsHighBits` | testSysC/aes.cpp:303-310 | Multiply reads bits 0 to 4 of y only, so it is the product with y modulo 32; it is the product with y itself if and only if x is zero or y is below 32 |
| `Gf.MixFromSums` | testSysC/aes.cpp:286-299 | the Tmp/Tm form of MixColumns gives the same four bytes as the column formula |
| `Gf.MixIsMatrixRow` | testSysC/aes.cpp:286-299 | each byte of a mixed column is a row of the matrix product of section 5.1.3 of FIPS 197, taken with field products |
| `Gf.InvMixFromMultiply` | testSysC/aes.cpp:324-340 | the four Multiply terms of InvMixColumns give the inverse column formula |
| `Gf.InvMixIsMatrixRow` | testSysC/aes.cpp:324-340 | each byte is a row of the inverse matrix of section 5.3.3 of FIPS 197 |
| `Gf.InvMixAfterMix` | testSysC/aes.cpp:286-340 | the inverse matrix undoes the matrix on every column |
| `Gf.MixAfterInvMix` | testSysC/aes.cpp:286-340 | and the matrix undoes the inverse matrix |
| `SBox.SubIsInverseThenAffine` | testSysC/aes.cpp:82-99 | every entry of the table is the affine map of section 5.1.1 of FIPS 197 applied to the field inverse |
| `SBox.TablesAreInverse` | testSysC/aes.cpp:82-117 | the two tables are inverse permutations of the bytes, in both directions |
| `KeySchedule.RconIsPower` | testSysC/aes.cpp:123-139 | entries 1 to 10 of the round constants are the powers of x in the field |
| `KeySchedule.ExpandedWord` | testSysC/aes.cpp:156-219 | word i of the expanded key is the recursive schedule word of section 5.2 of FIPS 197, which `AesBytes.ExpandedKeyBytes` gives byte by byte |
| `KeySchedule.ExpandedKeyStartsWithKey` | testSysC/aes.cpp:161-168 | round key 0 is the key |
| `KeySchedule.WordBack` | testSysC/aes.cpp:171-218 | the schedule runs backwards: a word is determined by the word four places on and the one before that |
| `KeySchedule.FourWordsDetermineKey` | testSysC/aes.cpp:171-218 | two keys whose schedules agree in any four consecutive words are equal |
| `KeySchedule.RoundKeysDistinct` | testSysC/aes.cpp:156-219 | at every round two keys have the same round key if and only if they are equal |
| `AesBytes.ExpandedKeyBytes` | testSysC/aes.cpp:156-219 | the 176 bytes by place, without naming a step of the schedule: the first sixteen are the key; byte 16 r + j is the sum of the byte sixteen places back and, for j below 4, of the table entry of byte 16 r - 4 + (j + 1) mod 4, with 01, 02, 04, 08, 10, 20, 40, 80, 1b or 36 for j = 0, and for the other j of the byte four places back |
| `AesBytes.CipherBytes` | testSysC/aes.cpp:387-410 | the cipher by place, without naming a step of it: eleven blocks lead from the sum with the first sixteen key bytes to the result; in rounds 1 to 9 the four bytes of column i are the rows 02 03 01 01, 01 02 03 01, 01 01 02 03 and 03 01 01 02 of field products with the table entries of bytes 4 i, 4 i + 5, 4 i + 10 and 4 i + 15 modulo 16, plus the bytes of the round key; in round 10 they are these table entries plus the key bytes from 160 on |
| `AesBytes.ExamplesOfTheStandard` | testSysC/aes.cpp:82-310 | the products of section 4.2 and the entry of section 5.1.1 of FIPS 197: 57 times 83 is c1, 57 times 13 is fe, and 53 is substituted by ed |
| `AesSpec.XorUndone` | testSysC/aes.cpp:223-233 | adding the same bytes twice gives back the block |
| `AesSpec.InvSubBytesInverse` | testSysC/aes.cpp:237-355 | InvSubBytes and SubBytes undo each other on every block |
| `AesSpec.InvShiftRowsInverse` | testSysC/aes.cpp:252-383 | InvShiftRows and ShiftRows undo each other on every block |
| `AesSpec.InvMixColumnsInverse` | testSysC/aes.cpp:286-340 | InvMixColumns and MixColumns undo each other on every block |
| `AesSpec.InvRoundsUndoRounds` | testSysC/aes.cpp:397-428 | any number of inverse rounds undoes as many rounds |
| `AesSpec.RoundsUndoInvRounds` | testSysC/aes.cpp:397-428 | and the other way round |
| `AesSpec.InvCipherInverse` | testSysC/aes.cpp:387-435 | for every block and expanded key, the inverse cipher of section 5.3 of FIPS 197 undoes the cipher of section 5.1, and the cipher undoes the inverse cipher; with `AesBytes.CipherBytes` this determines every byte of both |
| `Aes.Context.SubBytes` | testSysC/aes.cpp:237-247 | in place: the state becomes SubBytes of the old state, nothing else changes |
| `Aes.Context.InvSubBytes` | testSysC/aes.cpp:345-355 | in place: the state becomes InvSubBytes of the old state, nothing else changes |
| `Aes.Context.ShiftRows` | testSysC/aes.cpp:252-278 | the rotations through `temp` turn the state into ShiftRows of the old state |
| `Aes.Context.InvShiftRows` | testSysC/aes.cpp:357-383 | the rotations to the right turn it into InvShiftRows |
| `Aes.Context.MixColumns` | testSysC/aes.cpp:286-299 | in place, column by column: the state becomes the matrix product |
| `Aes.Context.InvMixColumns` | testSysC/aes.cpp:324-340 | in place: the state becomes the inverse matrix product |
| `Aes.Context.AddRoundKey` | testSysC/aes.cpp:223-233 | the state becomes the sum with the chosen round key |
| `Aes.Context.KeyExpansion` | testSysC/aes.cpp:156-219 | the loop fills all 176 bytes with the key schedule of the key it points to, the one of `AesBytes.ExpandedKeyBytes` |
| `Aes.Context.Cipher` | testSysC/aes.cpp:387-410 | the block at `state` becomes its cipher, the one of `AesBytes.CipherBytes`, under the expanded key in the array, and no byte outside the block changes |
| `Aes.Context.InvCipher` | testSysC/aes.cpp:412-435 | the block at `state` becomes its inverse cipher, the inverse of the one of `AesBytes.CipherBytes` |
| `Aes.Context.BlockCopy` | testSysC/aes.cpp:437-444 | copies 16 bytes to a place that is the same or has no byte in common, and changes nothing else |
| `Aes.Context.XorWithIv` | testSysC/aes.cpp:490-497 | adds the block that `Iv` points to |
| `Aes.Context.AES128_ECB_encrypt` | testSysC/aes.cpp:454-465 | the output block is the cipher of the input block under the schedule of the key, also when the two are the same or lie in one array |
| `Aes.Context.AES128_ECB_decrypt` | testSysC/aes.cpp:467-478 | the output block is the inverse cipher, in place or not |
| `Aes.Context.EncryptBlock` | testSysC/aes.cpp:521-525 | one round of the encrypting loop, in place or not: the output block is the cipher of the sum of the input block and the previous ciphertext block, an input block elsewhere holds that sum, and `Iv` points to the output block |
| `Aes.Context.DecryptBlock` | testSysC/aes.cpp:562-566 | one round of the decrypting loop, in place or not: the inverse cipher of the input block plus the block `Iv` points to, and `Iv` moved onto the input block |
| `Aes.Context.AES128_CBC_encrypt_buffer` | testSysC/aes.cpp:499-537 | for every length, with or without key and vector, in place or between windows that have no byte in common: the output is the chained encryption of the covered blocks and the extra block of the remainder branch, a covered input elsewhere holds P(j) + C(j - 1), `Iv` points to the last covered ciphertext block, and no byte beyond the touched ones changes |
| `Aes.Context.AES128_CBC_decrypt_buffer` | testSysC/aes.cpp:539-578 | for every length: between windows that have no byte in common the output is the chained decryption and the extra block; in place each block is chained to the plaintext before it; `Iv` points to the last covered input block, and nothing but the output changes |
| `Aes.BlockFunctionsInverse` | testSysC/aes.cpp:387-435 | the two block functions of one expanded key are inverse permutations of the blocks |
| `Aes.BufferRoundTrip` | testSysC/aes.cpp:499-578 | on the values written: for every key, vector and length, decrypting what was encrypted gives back every covered byte, so all of them for multiples of 16 |
| `Aes.InPlaceDecryption` | testSysC/aes.cpp:539-578 | an in-place call writes the plaintext if and only if every covered block but the last decrypts to itself; so it does for one block |
| `Aes.InPlaceFails` | testSysC/aes.cpp:539-578 | for every key, every ciphertext and every length above 16 there is a vector for which the in-place call writes something else |
| `Aes.InPlaceForEveryVector` | testSysC/aes.cpp:539-578 | for every key, ciphertext and length: an in-place call decrypts whatever the vector if and only if the length is at most 16 |
| `Aes.PaddedOnlyByCaller` | testSysC/aes.cpp:502-536 | the covered output is the encryption of the zero-padded message if and only if the bytes behind the message are zero already |
| `Aes.StreamedEncryption` | testSysC/aes.cpp:507-528 | on the values written: what a call on A followed by B writes is what a call on A writes, and then what a call on B writes whose vector is the last ciphertext block of the first; B has any positive length |
| `Aes.StreamedDecryption` | testSysC/aes.cpp:547-569 | the same for decryption, with the last ciphertext block of A as vector |
| `Aes.EncryptedWhole` | testSysC/aes.cpp:519-528 | on whole blocks a call touches exactly its argument and is plain chaining |
| `Aes.DecryptedWhole` | testSysC/aes.cpp:560-569 | the same for decryption |
| `Aes.EncryptedBufferBlock` | testSysC/aes.cpp:519-525 | block by block, for every length: each covered block of the output is the cipher of the input block at its place plus the output block before it, or plus the vector |
| `Aes.DecryptedBufferBlock` | testSysC/aes.cpp:560-566 | each covered block of the output is the inverse cipher of the input block at its place, plus the input block before it, or plus the vector |
| `Aes.ExtraBlocks` | testSysC/aes.cpp:531-577 | for a length that is no multiple of 16, the block behind the covered ones is the image, without chaining, of the first length mod 16 bytes found there followed by zeros |
| `AesCalls.EncryptThenDecrypt` | testSysC/aes.cpp:499-578 | two calls on buffers: encrypting a window into a second one, which may be the same, and decrypting that into a third, which may be the first, gives back every covered byte, for every length |
| `AesCalls.EncryptInTwoCalls` | testSysC/aes.cpp:499-537 | two calls, the second with neither key nor vector: the output is what one call on the joined window writes, and `Iv` ends where that call leaves it |
| `AesCalls.DecryptInTwoCalls` | testSysC/aes.cpp:539-578 | the same for decryption |
| `Cbc.RoundTrip` | testSysC/aes.cpp:519-569 | for any pair of inverse block functions, chained decryption undoes chained encryption |
| `Cbc.RoundTripBack` | testSysC/aes.cpp:519-569 | and chained encryption undoes chained decryption |
| `Cbc.InPlaceIffFixed` | testSysC/aes.cpp:560-569 | chaining each block to the plaintext before it is decryption if and only if every block but the last decrypts to itself |
| `Cbc.EncryptPieces` | testSysC/aes.cpp:519-528 | encryption in two pieces, the second chained to the last block of the first, is encryption of the whole |
| `Cbc.DecryptPieces` | testSysC/aes.cpp:560-569 | the same for decryption |
| `Cbc.DecryptIsLocal` | testSysC/aes.cpp:560-569 | decrypting any run of whole blocks with the block before it as vector gives that slice of the whole plaintext |
| `Cbc.EncryptPrefix` | testSysC/aes.cpp:519-528 | a prefix of the ciphertext is the ciphertext of the prefix |
| `Cbc.WhitenedBlock` | testSysC/aes.cpp:521-525 | block j of the overwritten input is P(j) + C(j - 1), and C(j) is its image |
| `Cbc.EncryptedBlock` | testSysC/aes.cpp:521-525 | C(j) is the image of P(j) + C(j - 1), and C(0) that of P(0) plus the vector, at their places in the two sequences |
| `Cbc.DecryptedBlock` | testSysC/aes.cpp:562-566 | P(j) is the inverse image of C(j), plus C(j - 1), or plus the vector |
| `Cbc.InPlaceBlock` | testSysC/aes.cpp:562-566 | in place the inverse image of C(j) is added to block j - 1 of the result, or to the vector |
| `Crypto.RoundTrip` | testSysC/crypto.cpp:88-149 | the words written by aesEncrypt, read and decrypted by aesDecrypt, are the low bytes of the source words followed by zeros to the next multiple of 16, and the length in the CPU's buffer descriptor is the number of words written; what these words are, `Crypto.EncryptedWordBlocks` says block by block |
| `Crypto.LowByteOfWidened` | testSysC/crypto.cpp:98-106 | a byte stored as a word and cut again is the same byte |
| `Crypto.CutAndWidened` | testSysC/crypto.cpp:98-106 | a word is cut to its value modulo 256, whatever the word, and a byte keeps its value as a word |
| `Crypto.EncryptedWordBlocks` | testSysC/crypto.cpp:91-107 | the words written hold bytes C, one each, and C[m..m+16] is the AES cipher, under the schedule of the key, of P[m..m+16] plus C[m-16..m], or plus the vector for m = 0, where P is each word read modulo 256 and zeros to the next multiple of 16 |
| `Crypto.DecryptedWordBlocks` | testSysC/crypto.cpp:129-148 | the mirror: P[m..m+16] is the inverse cipher of C[m..m+16], plus C[m-16..m], or plus the vector, with C from the words read and P in the words written |
| `Crypto.Crypto.LoadBytes` | testSysC/crypto.cpp:93-101 | the words read become bytes, padded with zeros to whole blocks |
| `Crypto.Crypto.StoreWords` | testSysC/crypto.cpp:105-107 | the bytes of the buffer become words |
| `Crypto.Crypto.AesEncrypt` | testSysC/crypto.cpp:88-107 | the words to be written back are, block by block, the chained cipher under `key`, with vector `iv`, of the words read modulo 256 and padded with zeros, as in `Crypto.EncryptedWordBlocks` |
| `Crypto.Crypto.AesDecrypt` | testSysC/crypto.cpp:126-148 | the words to be written back are, block by block, the unchained inverse cipher under `key`, with vector `iv`, as in `Crypto.DecryptedWordBlocks` |
| `Bus.Bus.ArbiterAnnounce` | testSysC/Project.cpp:78-81 | takes the head of the queue, makes it the current request, clears the answer and notifies the slaves |
| `Bus.Bus.MstPush` | testSysC/Project.cpp:95-97 | appends the request with no words transferred, and notifies the arbiter |
| `Bus.Bus.MstLatch` | testSysC/Project.cpp:111-113 | takes the word on the bus, counts it, and tells whether it was the last one |
| `Bus.Bus.PutWord` | testSysC/Project.cpp:124-125 | puts a word on the bus and notifies its receiver |
| `Bus.Bus.SlvAcknowledge` | testSysC/Project.cpp:141-142 | records the answer and notifies the arbiter |
| `Bus.Bus.SlvTake` | testSysC/Project.cpp:157-160 | takes the word, counts it, notifies the master, and tells whether it was the last one |
| `Bus.ProjectRangesDisjoint` | testSysC/memory.cpp:16 | the four address ranges of the project are disjoint (the constants are in testSysC/Project.h, lines 19 to 29) |
| `Bus.OneSlaveAnswers` | testSysC/memory.cpp:16 | with disjoint ranges at most one slave answers a request of at least one word that does not wrap, and all its words are in that slave's range |
| `Bus.AnsweredInRange` | testSysC/memory.cpp:16 | for a slave that answers, the words named are in its range if and only if the end address does not wrap around 32 bits |
| `Bus.BothAnswer` | testSysC/memory.cpp:16 | of two non-empty ranges, one below the other, both hold a request if and only if it wraps around 32 bits, starts at or above the upper range and ends at or below the lower one, or names no words at the address the two share |
| `Bus.SeveralAnswerIffWraps` | testSysC/memory.cpp:16 | with disjoint non-empty ranges a request of at least one word has several slaves answering if and only if it wraps from one of the ranges into a lower one |
| `Bus.AllFourAnswer` | testSysC/memory.cpp:16 | all four slaves of the project answer if and only if the request wraps, starts at 11 or above and ends at 2 or below |
| `Bus.WrappingRequests` | testSysC/memory.cpp:16 | a request that all four answer, and one that wraps and only the memory answers |
| `BusRuns.InitialInv` | testSysC/Project.cpp:67-77 | the invariant holds when the threads start |
| `BusSteps.IssueKeeps` | testSysC/Master.cpp:12-14 | a new call keeps the invariant in every phase |
| `BusPush.PushKeeps` | testSysC/Project.cpp:94-100 | a push keeps it in every phase, also while other requests are served |
| `BusSteps.LookInVainKeeps` | testSysC/Project.cpp:98-103 | a master woken by the acknowledge of another request goes back to waiting |
| `BusSteps.RestKeeps` | testSysC/Project.cpp:130-132 | a slave that returns to listening keeps it in every phase |
| `BusArbiter.TakeKeeps` | testSysC/Project.cpp:76-82 | a grant leads from a quiet bus to an announced request, with the memory about to hear it |
| `BusArbiter.AnswerKeeps` | testSysC/Project.cpp:138-143 | the answer of the slave whose range holds the request |
| `BusArbiter.IgnoreKeeps` | testSysC/memory.cpp:14-40 | a slave that is not addressed goes on listening |
| `BusArbiter.AckKeeps` | testSysC/Project.cpp:83-88 | the acknowledge of an answered request wakes its master and starts the transfer |
| `BusArbiter.RefuseKeeps` | testSysC/Project.cpp:83-89 | the acknowledge of an unanswered request when no other one is queued |
| `BusArbiter.AdvanceKeeps` | testSysC/Project.cpp:82-83 | the passing of time, whichever timed waits it ends |
| `BusEnds.RefusedKeeps` | testSysC/Project.cpp:100-103 | the master of an unanswered request returns with the refusal |
| `BusTransfer.StartReadKeeps` | testSysC/Master.cpp:20-26 | a granted read asks for its first word |
| `BusTransfer.StartWriteKeeps` | testSysC/Master.cpp:30-34 | a granted write goes to its first data cycle |
| `BusTransfer.SendKeeps` | testSysC/Project.cpp:145-151 | the slave puts the next word of a read on the bus: for the memory, the word the read should give |
| `BusTransfer.AwaitDataKeeps` | testSysC/Project.cpp:109-110 | the master of a read has the word on the bus |
| `BusTransfer.LatchKeeps` | testSysC/Project.cpp:111-119 | it takes the word and asks for the next one |
| `BusTransfer.LatchLastKeeps` | testSysC/Project.cpp:111-116 | it takes the last word |
| `BusEnds.EndReadKeeps` | testSysC/Project.cpp:117-118 | the end of a read: the words returned are those sent, and the bus is quiet again |
| `BusTransfer.DriveKeeps` | testSysC/Project.cpp:123-126 | the master of a write puts the next word of its data on the bus |
| `BusTransfer.WordTakenKeeps` | testSysC/Project.cpp:155-160 | the slave takes a word, the memory stores it at its place |
| `BusTransfer.LastWordKeeps` | testSysC/Project.cpp:157-162 | the slave takes the last word, which is not stored yet |
| `BusTransfer.GoOnKeeps` | testSysC/Master.cpp:32-36 | the master goes on to its next word |
| `BusEnds.LastReturnKeeps` | testSysC/Master.cpp:32-39 | the master of a write returns while the last word is still under way |
| `BusEnds.EndWriteKeeps` | testSysC/Project.cpp:162-164 | the end of a write: the last word is stored, and the memory is what the request makes of it |
| `BusRuns.StepKeeps` | testSysC/Project.cpp:72-165 | every step of a legal transfer under the discipline keeps the invariant, and leads to the phase named for it |
| `BusRuns.RunKeepsInv` | testSysC/Project.cpp:72-165 | every state of every disciplined run of legal transfers satisfies the invariant |
| `BusMachine.Machine.RunArbiter` | testSysC/Project.cpp:72-90 | the arbiter's code between two waits, on the bus object: the state becomes the one the step system names |
| `BusMachine.Machine.Issue` | testSysC/Master.cpp:12-14 | the same for a call of MasterDataTransfer |
| `BusMachine.Machine.RunMaster` | testSysC/Master.cpp:12-40 | the same for the code of a master, through its calls of the bus |
| `BusMachine.Machine.RunSlave` | testSysC/memory.cpp:7-41 | the same for the code of a slave; for the memory: word i of a read comes from the cell of address addr + i, the cell addr + i - lo of the array, and word i of a write goes to that cell |
| `BusMachine.Machine.Step` | testSysC/Project.cpp:72-165 | any choice of the scheduler takes the object to the state the step system names, and a legal, disciplined one keeps the invariant |
| `BusTheorems.Exclusive` | testSysC/Project.cpp:106-165 | at most one master and one slave move words; they are those of the current request, which has been answered, and no more words are counted than it names |
| `BusTheorems.WordNotOverwritten` | testSysC/Project.cpp:106-165 | whatever step comes next, a word on the bus is not overwritten before its receiver has taken it |
| `BusTheorems.RequestNotOverwritten` | testSysC/Project.cpp:78-165 | while anyone moves words, no step replaces the current request or withdraws the answer |
| `BusTheorems.ServedInOrder` | testSysC/Project.cpp:72-104 | grants, ends and returns follow the order of the pushes, at most one request is between grant and end, and the queue holds the rest in order |
| `BusTheorems.Delivered` | testSysC/Project.cpp:106-165 | a served request moved exactly as many words as it names, the receiver got what was sent in order, and for a write that is the data of the call |
| `BusTheorems.ReplyIsOwn` | testSysC/Project.cpp:92-104 | a call that has returned got the answer to its own request and the words of its own read; only the call of the current write can have returned before its request is finished, and it was acknowledged |
| `BusTheorems.MemoryServes` | testSysC/memory.cpp:16-19 | a finished request was served by the memory if and only if it is for the memory |
| `BusTheorems.Linearizable` | testSysC/memory.cpp:7-41 | in every disciplined run, a read of the memory returns the words found there when the requests are replayed one at a time in grant order, and whenever no request is being dealt with the memory is the result of that replay; `BusMemory.MemoryByAddress` says the same address by address, without a replay |
| `BusMemory.ReplayAt` | testSysC/memory.cpp:24-38 | replaying any requests leaves at each address of the memory the word that the last write naming the address has for it, data[address - addr], or the initial word if none does |
| `BusMemory.ReadAt` | testSysC/memory.cpp:24-28 | word j of a read is the word last written to address addr + j |
| `BusMemory.MemoryByAddress` | testSysC/memory.cpp:7-41 | linearizability by addresses: in every disciplined run each call for the memory that has returned was acknowledged, word j of a read is the word last written to addr + j by the requests before it, and whenever no request is being dealt with every cell holds the word last written to its address |
| `BusWakeups.WakesExactly` | testSysC/Project.cpp:72-165 | a step makes runnable exactly the other processes that wait for an event it notifies |
| `BusWakeups.NotifyFindsWaiter` | testSysC/Project.cpp:72-165 | whenever an event of the protocol is notified, the process it is meant for is waiting for it: the arbiter, if it waits for requests, sleeps on an empty queue; an announcement finds the memory and every device that is not at work |
| `BusWakeups.EndOfTransferOnce` | testSysC/Project.cpp:113-118 | a step notifies the end of a transfer if and only if it finishes a served request, so once for each, and then exactly its words have been received |
| `BusWakeups.RunnableCanStep` | testSysC/memory.cpp:19-37 | every runnable process can take its step: no word is read or stored outside an array, and no request is taken from an empty queue |
| `BusWakeups.NoDeadlock` | testSysC/Project.cpp:72-165 | while a call has not returned some step is possible; it keeps to the discipline unless an unanswered request has timed out before others |
| `BusHazards.LostForever` | testSysC/Project.cpp:98-103 | a master whose request is neither queued nor current never returns |
| `BusHazards.LosesIffUndisciplined` | testSysC/Project.cpp:76-103 | a step loses a master if and only if it is a grant while a waiting master is not in the queue |
| `BusHazards.NobodyLostIffDisciplined` | testSysC/Project.cpp:76-103 | in every run whatsoever, nobody is ever lost if and only if every grant keeps to the discipline |
| `BusHazards.LostToTheEnd` | testSysC/Project.cpp:98-103 | once lost, a master is lost in every later state of the run |
| `BusHazards.AnsweredRunIsGood` | testSysC/Project.cpp:72-90 | if every grant finds a listening slave that claims the request, the run keeps to the discipline |
| `BusHazards.PromptRunIsGood` | testSysC/Project.cpp:72-165 | if every transfer is legal, which includes that its slave moves as many words as it names, and for a slave that listens again without a wait, every run keeps to the discipline and nobody is lost, whatever the scheduler does |
| `BusHazards.MemoryRunIsGood` | testSysC/memory.cpp:7-41 | in particular if every transfer is legal and for the memory |
| `BusFailures.OvertakenRequest` | testSysC/Project.cpp:82-103 | a legal run in which an unanswered request is overtaken: one call never returns, another is refused although its request was answered, and the bus stops |
| `BusFailures.DeadForever` | testSysC/Project.cpp:85-88 | an arbiter that waits for the end of a transfer in which nobody has a word to move waits forever, and grants nothing |
| `BusFailures.NeverDead` | testSysC/Project.cpp:72-165 | a state that satisfies the invariant is not such a state |
| `BusFailures.ZeroLengthStopsTheBus` | testSysC/Master.cpp:20-37 | when the master of an answered request looks at the answer while nobody else moves words, the bus is in that state afterwards if and only if the request is for no words, or is a read and no slave is about to send |
| `BusFailures.NoWordsRun` | testSysC/Master.cpp:20-37 | every transfer of no words that the memory answers has a run, with this one call, in which the call returns and the bus is in that state |
| `BusDevices.TooFewWords` | testSysC/crypto.cpp:53-66 | once a transfer has been granted, a device that moves fewer words than it names leaves the bus in that state |
| `BusDevices.TooManyWords` | testSysC/encoder.cpp:37-49 | a device that moves more words than the granted transfer names is still waiting for a word when the bus is at rest again, and does not listen |
| `BusTraffic.FirstIsOvertaken` | testSysC/Project.cpp:76-103 | on any bus at rest with two masters or more: two calls for a transfer that no listening slave claims lose the first of them |
| `BusTraffic.UnservedIsUnsound` | testSysC/Project.cpp:72-165 | for every well-formed transfer that no slave claims and moves word by word, there is a run from the start that asks for nothing else and loses a master or stops the bus |
| `BusTraffic.SoundIffServed` | testSysC/Project.cpp:72-165 | on every bus with two masters or more, and for any set of well-formed transfers: every run that asks for these alone, with devices that are never busy, loses nobody and never stops if and only if each of them is claimed by a slave that moves exactly the words it names |
| `BusTraffic.ProjectIsValid` | testSysC/memory.cpp:16 | the four slaves of the project, with a memory of its size, make a bus the theorems apply to |
| `BusTraffic.ProjectServes` | testSysC/crypto.cpp:53-66 | on the project's bus these are the transfers inside the memory, one word read from the card or the encoder, one or two written to the card, two written to the encoder and four to the crypto block, each from its first address on |
| `BusProgress.StepProgress` | testSysC/Project.cpp:72-165 | every step of a disciplined run, of whatever process, makes the number of steps left until a given request is finished smaller |
| `BusProgress.WithinBound` | testSysC/Project.cpp:72-165 | that number is at most six steps for each word of the current request and of those queued up to the given one, and a constant for each of them, each master and each slave |
| `BusProgress.ServedInTime` | testSysC/Project.cpp:72-165 | a request that has been pushed is finished when that many steps have been taken, in every disciplined run |
| `BusProgress.RealTimeOrder` | testSysC/Project.cpp:92-104 | a call that has returned before the request of another is pushed comes before it in the order in which calls take effect, and both keep their places |
| `Encoder.Encoder.Read` | testSysC/encoder.cpp:123-125 | a read gives the next byte, or leaves the variable and sets the end-of-file flag |
| `Encoder.Encoder.Append` | testSysC/encoder.cpp:130 | puts a byte behind those in the buffer |
| `Encoder.Encoder.ReadRun` | testSysC/encoder.cpp:121-131 | the inner loop reads one run up to a byte that is not zero, counts its bytes, keeps the header and the buffer, or reaches the end of the file, or finds the buffer full, which happens only in a call that needs more room |
| `Encoder.Encoder.EndUnit` | testSysC/encoder.cpp:134-147 | a separator is taken out of the buffer; a unit whose first byte modulo 32 is 1 to 6 ends the call, another unit does not; or the index falls below zero |
| `Encoder.Encoder.NewFrame` | testSysC/encoder.cpp:112-150 | for every file, position and buffer: the call stores behind the buffer if and only if the largest number of bytes it holds at a time exceeds its size; else it ends as the splitter says, with the bytes in the buffer, the position and the flag, or with the index below zero |
| `Encoder.Encoder.ReadFile` | testSysC/encoder.cpp:66-110 | the loop over the calls records what each of them leaves in the buffer, until the end of the file or the last call; it gets there if and only if every call stays inside the buffer |
| `Splitter.NextMarker` | testSysC/encoder.cpp:134 | the first place behind the given one where two zeros and one of 1, 2, 3 end, all read by this call |
| `Splitter.FrameTypes` | testSysC/encoder.cpp:137 | a unit ends the call if and only if the low five bits of its first byte, its value modulo 32, are 1 to 6 |
| `Splitter.MarkerFound` | testSysC/encoder.cpp:121-134 | a run of at least three bytes that ends with 1, 2 or 3 ends at the first such place |
| `Splitter.MarkerNotFound` | testSysC/encoder.cpp:121-134 | any other run ends without one |
| `Underruns.SplitUnderruns` | testSysC/encoder.cpp:112-150 | the index falls below zero if and only if for some k the first k units of the call with their separators have fewer than 4 k bytes, and no unit before the k-th is a frame |
| `Underruns.ShortCodeUnderruns` | testSysC/encoder.cpp:134-136 | it does on a stream that opens with 00 00 01 |
| `Underruns.LongCodesNeverUnderrun` | testSysC/encoder.cpp:134-136 | it never does if a third zero stands in front of every 00 00 01, 02 and 03 |
| `Streams.SeparatorFoundIffClean` | testSysC/encoder.cpp:134 | the separator 00 00 00 01 behind a unit is the first thing taken for one, if and only if the unit has no two zeros followed by 1, 2 or 3 |
| `Streams.CallReturnsUnits` | testSysC/encoder.cpp:112-150 | on clean units of which the j-th is the first whose first byte modulo 32 is 1 to 6, a call returns the units up to and including the j-th, and leaves the file just behind its separator |
| `Streams.UnitReturnedIffFrame` | testSysC/encoder.cpp:134-147 | on a clean unit followed by a separator the call returns exactly this unit if and only if its first byte modulo 32 is 1 to 6 |
| `Streams.CleanBytes` | testSysC/encoder.cpp:134 | a unit is clean if and only if nowhere in it two zeros stand before a byte from 1 to 3 |
| `Streams.FrameReturnedIffClean` | testSysC/encoder.cpp:112-150 | for a frame followed by a separator the call returns exactly the frame, if and only if the frame is clean |
| `Streams.EmulationPreventionIsNotClean` | testSysC/encoder.cpp:134 | a unit with an emulation prevention byte is not clean |
| `Streams.StartCode` | testSysC/encoder.cpp:134-136 | for a clean frame before z zeros, two or more, and a 1: the call returns frame and zeros without the last three, so the frame itself if and only if z is three |
| `Streams.ShortSeparatorLosesByte` | testSysC/encoder.cpp:134-136 | with the separator 00 00 01 the last byte of the frame is removed as well |
| `Streams.LastCallDuplicatesByte` | testSysC/encoder.cpp:123-130 | without a further separator the call takes the rest of the file and its last byte once more |
| `Streams.Conservation` | testSysC/encoder.cpp:112-150 | after any number of calls that ended at a separator, the units read so far are cut into consecutive pieces, one for each call: its frame is the piece without separators, and the last unit of the piece, and no other, is a frame unit |
| `Streams.AllFramesReturned` | testSysC/encoder.cpp:112-150 | as many calls end at a separator as there are frame units in the stream, whatever the stale bytes, and the next one reaches the end of the file |
| `Streams.PeakOfUnits` | testSysC/encoder.cpp:121-136 | up to the first frame a call on clean units needs room for the frame it returns and four bytes more |
| `Streams.FramesOfStream` | testSysC/encoder.cpp:66-110 | what the loop records on a stream of clean units: the frames, in order, one for each frame unit, and then the rest of the file with its last byte twice; it stays inside the buffer if and only if every frame fits in with four bytes more, and so does the rest |
| `Secure.Cryptex.Layout` | testSysC/secure.cpp:35-54 | the key starts at byte 32, the code at 32 plus the length of the key, the body at 32 plus both lengths; behind the header every byte of the container belongs to exactly one of the three, and the body ends where the container ends |
| `Secure.Cryptex.Put` | testSysC/ecies.cpp:93 | writes its bytes at its place in the container and changes nothing else |
| `Secure.Cryptex.PutKey` | testSysC/ecies.cpp:93 | fills the key region, bytes 32 to 32 + key, and leaves the code and the body as they are |
| `Secure.Cryptex.PutMac` | testSysC/ecies.cpp:178-179 | fills the region of the authentication code, the next `mac` bytes, and leaves the key and the body as they are |
| `Ecies.TwoStages` | testSysC/ecies.cpp:114-146 | encrypting the whole blocks, and then the zero-filled rest as one more block, is one-shot chained encryption of the zero-padded message, and fills the body exactly |
| `Ecies.EncryptBody` | testSysC/ecies.cpp:110-169 | the body region holds that encryption; nothing before it changes |
| `Ecies.EciesEncrypt` | testSysC/ecies.cpp:26-189 | the container holds the ephemeral public key, the code of the body, the length and the encrypted body; null exactly for an empty message or a failed key agreement |
| `Ecies.EciesDecrypt` | testSysC/ecies.cpp:191-306 | null exactly if the key or the code is rejected or the body is not made of whole blocks; else the decrypted body, a zero byte, and the original length |
| `Ecies.SealedByParts` | testSysC/ecies.cpp:26-189 | what the container holds, for any primitives: the ephemeral public key, the length, the code of the body under bytes 32 to 63 of the agreed secret, and a body whose first block is the image of the first block of the zero-padded message under the cipher keyed with bytes 0 to 31, so that the vector is zero, the later blocks being chained |
| `Ecies.OpenedByParts` | testSysC/ecies.cpp:191-306 | a container is accepted if and only if its key is one, 64 bytes are agreed on, bytes 32 to 63 of them give the code of the body, and the body is made of whole blocks; then the result is the body, unchained from a vector of zeros with the cipher keyed with bytes 0 to 31, a zero byte, and the length in the header |
| `Ecies.RoundTrip` | testSysC/ecies.cpp:26-306 | for lawful primitives, decrypting an encrypted message gives its bytes and its length |
| `Ecies.AcceptedIffAuthentic` | testSysC/ecies.cpp:254-259 | a container with another body or code is accepted if and only if the body is made of whole blocks and has that code |

## Left out

- testSysC/cpu.cpp and testSysC/NetworkInterface.cpp: the first repeats `Bus` and is not started, the second is another version of the network card.
- testSysC/keys.cpp and the calls into the cryptographic library: the primitives are parameters of `Ecies.Suite`, with the laws that are used; failures of the library inside encryption and decryption are not modelled.
- testSysC/network_interface_card.cpp: connection set-up and transmission are timing; the card is one of the devices of the bus.
- Energy counters, simulated delays as quantities, printed output and the opening of files.
- The software on the two processors (testSysC/Project.cpp:184-297), except the length it puts into the buffer descriptor.
- Devices: what a device does with a word, and how long it is busy afterwards. `BusTraffic.SoundIffServed` is about runs in which no device is busy; the network card is while it sets up a connection.
- Aes.Context.AES128_CBC_encrypt_buffer: windows that overlap in part are not modelled, nor is a vector that lies in one of them, or a key in the first block of the output.
- Aes.Context.AES128_CBC_decrypt_buffer: windows that overlap in part are not modelled, nor is a vector that lies in the output, or a key in its first block.
- KeySchedule.RconIsPower: covers the first eleven entries of the table, the ones that are read; the branch for `Nk` above 6 is never taken for a key of 16 bytes and is left out.
- BusTheorems.Linearizable: what a device does with the words it receives, and where its words come from, is not part of the statement.
- BusWakeups.NoDeadlock: when an unanswered request has timed out before others, the step it gives is the grant that loses its master.
- Encoder.Encoder.NewFrame: what happens after the index has left the buffer is not modelled.
- Encoder.Encoder.ReadFile: the frames are sequences of bytes; their copy to words, the transfer to memory and the limit of eleven frames (testSysC/encoder.cpp:78-107) are left to the caller, who gives one stale byte for each call.
- Secure.Cryptex.Put: the four lengths of the header are fields of the object, not bytes of the allocation, and lengths do not overflow.
- Ecies.EncryptBody: lengths below 2^31, since the code keeps them in an `int`; the error branches for a cipher that writes too much cannot be reached with the library's contract and are left out.
