# Models and proofs for a Linux 2.6 tree

Dafny models of some of the most intricate code of the kernel's `crypto/` and `fs/`
directories, with the properties that code is there to keep.

- **Asynchronous i/o contexts** (`AioRing.dfy`, `AioContext.dfy`, `AioKicks.dfy`). One `kioctx`, all its
  requests, the threads that drain its run lists, the drivers, the cancel callbacks and
  the readers of its ring, as a state machine whose steps end where `ctx_lock` is
  released; `aio_complete` is split between storing an event and publishing the tail,
  `aio_read_evt` between copying one out and moving the head. All results are about every
  finite interleaving of the steps, and one is about which interleavings exist: when a
  request can be freed while a kick of it is under way. The layout of the ring in pages is treated apart,
  for all page, header and event sizes.
- **Block modes over scatterlists** (`Scatterwalk.dfy`, `BlockModes.dfy`,
  `CipherDriver.dfy`). The cursor over segments and pages, and the `crypt` loop that works
  in place where it can and through scratch blocks where it cannot, against ECB and CBC
  on flat byte strings.
- **AES** (`Gf256.dfy`, `AesRounds.dfy`, `AesTables.dfy`, `Aes.dfy`, `AesContext.dfy`).
  The generated tables, the key schedule and the table rounds, against FIPS 197, up to
  decryption undoing encryption.
- **Serpent** (`Serpent.dfy`). The bitsliced S-boxes and their inverses, and the 32
  rounds with renamed registers in both directions, from bytes to bytes.
- **Digests** (`Digest.dfy`, `Sha.dfy`, `Md5.dfy`, `Wp512.dfy`, `Sha1Transform.dfy`,
  `Sha1Digest.dfy`, `Hmac.dfy`). Buffering, bit counters and padding against the fold of the
  compression function over the padded message; the SHA-1 compression function itself; the
  keyed hash of RFC 2104 over page-split scatterlists; and SHA-1 and HMAC-SHA-1 put
  together from these.
- **Block devices** (`BlockClaim.dfy`, `BlockOpen.dfy`, `BioPair.dfy`). Claims and opens
  of a disk and its partitions, and the completion of a split bio.
- **ELF core dumps** (`ElfCore.dfy`). The pass that plans offsets and the pass that writes.
- `Basics.dfy` and `Arithmetic.dfy` hold what several of these share: bytes, word sizes and
  error numbers, and facts about remainders.

Code that updates a structure in place is a class or a method over arrays here, proved
against functions of values; protocols between processors are state machines or classes
whose methods are single steps. Compression functions (except that of SHA-1) and block
ciphers under a mode of operation are parameters. Foreign answers - a driver's return
value, a failing write, an allocation - are nondeterministic or parameters.

Some things the code does are not what one would expect at first; the models follow the
code and say exactly when the expected property holds:

- A kick of a request that has returned `-EIOCBQUEUED` is recorded and then ignored
  (`AioContext.KickAfterHandover`, `AioContext.KickNotLost`), as is one of a request that
  reached the retry limit.
- A kick holds no reference: between its test-and-set and `queue_kicked_iocb` the request
  can be completed and freed (`AioContext.KickOutlivesRequest`). Some further run frees it
  before a kick of it is queued if and only if the kick found it completed, with a driver,
  with a thread that has yet to call the retry method or whose call ends in a result, or
  queued or being run below the retry limit (`AioKicks.FreedInFlight`). A kick that found it off the lists, with no other kick
  in flight, also queues it (`AioContext.KickFindsRequest`).
- The bit counters of SHA-1, SHA-256 and SHA-512 lose bits on long updates, in three
  different ways (`Sha.Count64Exact`, `Sha.Count2Exact`, `Sha.AddExact`, and a length
  each that shows it); the buffering is right all the same, up to lengths at which the
  32-bit sum in its test wraps (`Digest.LoopFits`, `Sha.GuardFits`).
- `wp512_update` takes the length in bits modulo 2^32 and so drops whole multiples of
  2^29 bytes (`Wp512.Ctx.Update`, `Wp512.TakesAll`, `Wp512.HalfGigabyteLost`).
- A core file may end before the last area it plans: what is sought over at its end, also
  the fill between the notes and the areas when nothing is written after it, is not in it (`ElfCore.HoleClosed`, `ElfCore.ZeroPageLost`).
- CBC without an initial value leaves a block alone that the walk has ahead in one page,
  and writes what its scratch block held over one that it has not. The destination is as
  before if and only if every block of the second kind held just that
  (`CipherDriver.Crypt`, `CipherDriver.IdleSame`); two bytes on both sides of a page end
  are changed (`CipherDriver.ScratchShows`).
- The last pass of the 256-bit AES key expansion writes four words past the encryption
  key, into the part of the decryption key that is written next
  (`AesContext.AesCtx.ExpandKey`).

What is taken for granted about the surroundings of `fs/aio.c`: a driver calls
`aio_complete` once for a request whose retry method gave it away, and for no other; a
cancel callback drops the reference taken for it; `io_destroy` is called with a look-up
reference; the ring page mapped by the user is not written to; a kick begins while the
request is allocated and after it was submitted. After a step `StaleKick`, in which a kick
goes on with a request that was freed, the states of the model say nothing of the code.

## Model

| member | source | states |
|---|---|---|
| AioContext.StepKeeps | linux-2.6.x/fs/aio.c:392-1072 | every step of every thread - submission, retry, kick, wake-up, completion, cancellation, put, look-up, destruction, reading - keeps the invariant of the context |
| AioContext.RunKeeps | linux-2.6.x/fs/aio.c:392-1072 | the invariant holds after any finite interleaving of enabled steps |
| AioContext.ReachableInv | linux-2.6.x/fs/aio.c:200-264 | the invariant holds in every state reached from a new context, for every ring size |
| AioContext.OneRetryAtATime | linux-2.6.x/fs/aio.c:656-767 | in every run at most one thread is inside `aio_run_iocb` for a request |
| AioContext.KickNotLost | linux-2.6.x/fs/aio.c:884-923 | a kicked, uncompleted request whose kicker is done and which no thread runs is on a run list if and only if it did not hit the retry limit and is not with a driver; hitting the limit means more than 1024*1024 retries |
| AioContext.KickedMeansPending | linux-2.6.x/fs/aio.c:621-632 | below the limit and while no driver holds the request, the kicked flag means queued, being run, or a kicker on its way |
| AioContext.KickAfterHandover | linux-2.6.x/fs/aio.c:733-748 | a concrete run in which the kick of a request that returned `-EIOCBQUEUED` sets the flag and queues nothing: the exception in `KickNotLost` is needed |
| AioContext.KickOutlivesRequest | linux-2.6.x/fs/aio.c:884-923 | a concrete run in which a request is completed and freed while a kick of it is between the test-and-set and `queue_kicked_iocb` |
| AioContext.KickFindsRequest | linux-2.6.x/fs/aio.c:884-923 | in every run, a kick that found the request off the lists with no other kick in flight finds it allocated and still off the lists when it comes to queue it, whatever steps are taken in between, and queues it |
| AioKicks.FreedInFlight | linux-2.6.x/fs/aio.c:884-923 | for every reachable state and every submitted request: after the test-and-set of a kick there is a run that frees the request with no `queue_kicked_iocb` of it if and only if the kick found it completed, handed to a driver, with a thread that has yet to call the retry method or whose call ends in a result, or neither idle nor capped and with no more than 1024*1024 retries |
| AioKicks.ReleasableLeads | linux-2.6.x/fs/aio.c:656-1030 | such a run exists: publish what is stored, let the thread that runs the request go round for a result, complete it, drop every reference |
| AioKicks.UnreleasableKeeps | linux-2.6.x/fs/aio.c:392-1072 | no step but a queued kick of the request makes it one that can be freed |
| AioKicks.UnreleasableStays | linux-2.6.x/fs/aio.c:392-1072 | after any number of such steps it is allocated |
| AioKicks.DropLeads | linux-2.6.x/fs/aio.c:493-535 | the references to a completed request can be dropped one after another until it is freed, or parked and freed by `aio_fput_routine` |
| AioContext.PinnedKeeps | linux-2.6.x/fs/aio.c:656-923 | a request off the lists with its only kick in flight, or over the retry limit, is neither run nor completed by any step but that kick |
| AioContext.NothingStranded | linux-2.6.x/fs/aio.c:739-765 | no submitted, uncompleted request is forgotten: it is queued, being run, over the limit, with a driver, on a wait queue, or a wake-up or kick is due |
| AioContext.RingDelivers | linux-2.6.x/fs/aio.c:931-1072 | uncompleted requests plus unread events never exceed the ring size less one; readers get a prefix of the published events; no request has two events; every request is uncompleted, finished silently or published, and only one of these |
| AioContext.NoUnreadOverwritten | linux-2.6.x/fs/aio.c:985-1006 | in every run the event `aio_complete` stores leaves every unread event in its slot |
| AioContext.CancelledGetsNoEvent | linux-2.6.x/fs/aio.c:978-983 | a request cancelled before it completes has no event after any further run |
| AioContext.CancelCallsOff | linux-2.6.x/fs/aio.c:271-291 | both cancel paths put an uncompleted request into the state `CancelledGetsNoEvent` starts from |
| AioContext.ReferencesBalance | linux-2.6.x/fs/aio.c:363-379 | in every run no `BUG()` is reached, `reqs_active` is the number of allocated requests, parked ones included, each of which holds one context reference; every request is freed exactly once and never both freed and allocated |
| AioContext.LastReference | linux-2.6.x/fs/aio.c:1228-1252 | when the last context reference goes, no request, thread or uncompleted i/o is left, and every request was freed and has its event unless it finished silently |
| AioContext.PutKeeps | linux-2.6.x/fs/aio.c:493-519 | `__aio_put_req`, whether the request lives on, is freed or is parked for `fput`, restores the invariant of a state that owes one reference |
| AioContext.GetReqKeeps | linux-2.6.x/fs/aio.c:392-433 | `__aio_get_req` keeps the invariant: the free-slot test leaves room for the event of the new request |
| AioContext.FailSecondPutKeeps | linux-2.6.x/fs/aio.c:1556-1559 | the second put on the error path of `io_submit_one` keeps the invariant and finishes the request without an event |
| AioContext.SubmitStepKeeps | linux-2.6.x/fs/aio.c:1547-1553 | queueing the request, and the submitter's puts, keep the invariant |
| AioContext.SpliceKeeps | linux-2.6.x/fs/aio.c:776-782 | moving the run list to a private list keeps the invariant |
| AioContext.RunStartKeeps | linux-2.6.x/fs/aio.c:656-708 | starting a retry, or giving up at the retry limit, keeps the invariant |
| AioContext.BeginRetryKeeps | linux-2.6.x/fs/aio.c:710-731 | the cancellation test and the call of the retry method keep the invariant, with a hand-over to a driver at any time from then on |
| AioContext.RetryReturnKeeps | linux-2.6.x/fs/aio.c:733-746 | the three returns of a retry method keep the invariant; a retry that waits for nothing kicks itself |
| AioContext.RunFinishKeeps | linux-2.6.x/fs/aio.c:747-800 | re-enabling kicks, queueing again and dropping the reference keep the invariant |
| AioContext.CompleteWriteKeeps | linux-2.6.x/fs/aio.c:931-1003 | the first half of `aio_complete` keeps the invariant; cancelled requests go without an event |
| AioContext.CompletePublishKeeps | linux-2.6.x/fs/aio.c:1003-1030 | publishing the tail and the put keep the invariant |
| AioContext.KickStepKeeps | linux-2.6.x/fs/aio.c:884-923 | setting the kicked flag outside the lock, and queueing under it, keep the invariant, for live requests and for those parked for `fput` |
| AioContext.WakeKickKeeps | linux-2.6.x/fs/aio.c:1474-1481 | `aio_wake_function`'s kick keeps the invariant |
| AioContext.CancelKeeps | linux-2.6.x/fs/aio.c:1646-1694 | cancelling one request, or all of them, keeps the invariant |
| AioContext.FputFreeKeeps | linux-2.6.x/fs/aio.c:466-488 | `aio_fput_routine` frees a parked request and keeps the invariant |
| AioContext.ContextStepKeeps | linux-2.6.x/fs/aio.c:540-555 | allocation, splicing, reading, look-ups, `io_destroy`, `exit_aio` and `put_ioctx` keep the invariant |
| AioContext.ReadStepKeeps | linux-2.6.x/fs/aio.c:1038-1072 | the two halves of `aio_read_evt` keep the invariant beside a completion in progress |
| AioRing.AvailIsFree | linux-2.6.x/include/linux/aio.h:114 | `aio_ring_avail` is the ring size less one less the unread events |
| AioRing.WriteKeeps | linux-2.6.x/fs/aio.c:985-994 | with a free slot, the slot at the tail holds no unread event |
| AioRing.PublishKeeps | linux-2.6.x/fs/aio.c:1003-1006 | the tail moves on by one event and the ring stays the image of the event history |
| AioRing.CopyKeeps | linux-2.6.x/fs/aio.c:1053-1058 | the event copied out is the oldest unread one |
| AioRing.AcknowledgeKeeps | linux-2.6.x/fs/aio.c:1059-1063 | moving the head delivers exactly that event |
| AioRing.HeadIsTail | linux-2.6.x/fs/aio.c:1050-1056 | head equals tail exactly when nothing is unread |
| AioRing.SlotInside | linux-2.6.x/fs/aio.c:178-189 | for every page, header and event size with the event size dividing the page size, event `i` of the ring lies in one of its pages, inside that page and past the header |
| AioRing.SlotsDistinct | linux-2.6.x/fs/aio.c:178-189 | different indices have different slots |
| AioRing.RoomForAll | linux-2.6.x/fs/aio.c:103-121 | the pages allocated hold at least `max_reqs` + 2 events |
| CipherDriver.Crypt | linux-2.6.x/crypto/cipher.c:47-96 | for every fragmentation of a source and a destination that name the same bytes or share none, the destination holds the mode of operation of the flat source, no other byte changes, the chaining value is left for the next call; CBC without an initial value leaves in the destination, block by block, the old block where the walk has all of it ahead in one page and what the scratch block held where not, so that memory is unchanged if and only if all blocks of the second kind held that already; a bad length changes nothing and gives `-EINVAL` |
| CipherDriver.OneBlock | linux-2.6.x/crypto/cipher.c:70-94 | one turn of the loop: the next block of the destination is the processed next block of the source, whether each is used in place or through scratch, and both walks advance by a block; CBC without an initial value keeps a block that is ahead in this page and stores the scratch block over any other, and changes nothing if and only if it keeps the block or stores the same bytes |
| CipherDriver.IdleSame | linux-2.6.x/crypto/cipher.c:98-105 | what CBC without an initial value leaves is the old text if and only if every block is ahead in one page or equals the scratch block |
| CipherDriver.ScratchShows | linux-2.6.x/crypto/cipher.c:98-105 | two zero bytes around a page end become the two bytes of the scratch block |
| CipherDriver.StoredSame | linux-2.6.x/crypto/cipher.c:88-89 | storing a block changes nothing if and only if its bytes are there already |
| CipherDriver.Process | linux-2.6.x/crypto/cipher.c:98-127 | ECB and CBC on one block, in place or not: the output and the next chaining value, nothing else written; with a NULL initial value CBC does nothing |
| CipherDriver.Fetch | linux-2.6.x/crypto/scatterwalk.c:103-124 | after the source side of a block its buffer holds the next bytes of the walk |
| CipherDriver.Flush | linux-2.6.x/crypto/scatterwalk.c:103-124 | after the destination side the next bytes of the walk hold the block |
| CipherDriver.SameBuf | linux-2.6.x/crypto/scatterwalk.h:36-43 | `scatterwalk_samebuf` holds exactly when the two in-place buffers are one; otherwise they do not overlap |
| CipherDriver.NextBlock | linux-2.6.x/crypto/cipher.c:70-94 | a processed block extends what is in the destination from n to n + 1 blocks of the flat result |
| CipherDriver.CbcAcrossLayouts | linux-2.6.x/crypto/cipher.c:160-198 | CBC decryption of the ciphertext gives the plaintext back, whatever the four layouts are |
| BlockModes.RunChains | linux-2.6.x/crypto/cipher.c:160-198 | one call over a concatenation equals two calls with the retained chaining value |
| BlockModes.CbcRoundTrip | linux-2.6.x/crypto/cipher.c:98-121 | CBC decryption inverts CBC encryption and leaves the same chaining value |
| BlockModes.EcbRoundTrip | linux-2.6.x/crypto/cipher.c:123-127 | ECB decryption inverts ECB encryption |
| BlockModes.ModesByTheStandard | linux-2.6.x/crypto/cipher.c:98-127 | block by block the modes are the recurrences of sections 6.1 and 6.2 of NIST SP 800-38A |
| BlockModes.ChainValue | linux-2.6.x/crypto/cipher.c:108-118 | the chaining value is the last ciphertext block |
| Scatterwalk.ScatterWalk.constructor | linux-2.6.x/crypto/scatterwalk.c:49-61 | a new walk has all bytes of the list ahead |
| Scatterwalk.ScatterWalk.Start | linux-2.6.x/crypto/scatterwalk.c:49-61 | the bytes ahead are those of the segment and all that follow |
| Scatterwalk.ScatterWalk.Map | linux-2.6.x/crypto/scatterwalk.c:63-66 | mapping sets the data address to the cursor and moves nothing |
| Scatterwalk.ScatterWalk.PageDone | linux-2.6.x/crypto/scatterwalk.c:68-90 | leaving a page drops exactly its remaining bytes, across page and segment ends and empty segments; how much of the next page is ahead follows from the layout of the list |
| Scatterwalk.ScatterWalk.Done | linux-2.6.x/crypto/scatterwalk.c:92-97 | `scatterwalk_done` loses no byte, and leaves a page or segment that is used up |
| Scatterwalk.ScatterWalk.Advance | linux-2.6.x/crypto/scatterwalk.c:120-123 | advancing in a page drops exactly the bytes used; what any later byte will find ahead in its page stays the same |
| Scatterwalk.ScatterWalk.CopyIn | linux-2.6.x/crypto/scatterwalk.c:103-124 | gathering: the buffer gets the next bytes in order, over any number of pages and segments |
| Scatterwalk.ScatterWalk.CopyOut | linux-2.6.x/crypto/scatterwalk.c:103-124 | scattering: the next bytes of the list become those of the buffer and no other byte changes |
| AesContext.RoundTrip | linux-2.6.x/crypto/aes.c:341-431 | with generated tables, `aes_decrypt` undoes `aes_encrypt` for every 16, 24 or 32 byte key and every block |
| AesContext.AesCtx.SetKey | linux-2.6.x/crypto/aes.c:272-324 | the schedule of sections 5.2 and 5.3.5 of FIPS 197 for 16, 24 and 32 bytes; any other length is refused and changes nothing |
| AesContext.AesCtx.ExpandKey | linux-2.6.x/crypto/aes.c:285-312 | the encryption words are KeyExpansion of FIPS 197, also where the last 256-bit pass runs past the array |
| AesContext.AesCtx.Loop4 | linux-2.6.x/crypto/aes.c:241-247 | four words further, key of 128 bits |
| AesContext.AesCtx.Loop6 | linux-2.6.x/crypto/aes.c:249-257 | six words further, key of 192 bits |
| AesContext.AesCtx.Loop8 | linux-2.6.x/crypto/aes.c:259-270 | eight words further, key of 256 bits, with the extra substitution |
| AesContext.AesCtx.InvertKey | linux-2.6.x/crypto/aes.c:314-321 | the decryption words are InvMixColumns of the middle round keys and copies of the first |
| AesContext.ImixIsInvMixCol | linux-2.6.x/crypto/aes.c:227-237 | `imix_col` on a packed word is InvMixColumns on its column |
| AesContext.AesCtx.Encrypt | linux-2.6.x/crypto/aes.c:341-379 | ten, twelve or fourteen table rounds are Cipher of FIPS 197 under the expanded key |
| AesContext.AesCtx.Decrypt | linux-2.6.x/crypto/aes.c:394-431 | the table rounds are the equivalent inverse cipher, and give back every block that was encrypted |
| Aes.DecryptInvertsEncrypt | linux-2.6.x/crypto/aes.c:394-431 | EqInvCipher inverts Cipher for every expanded key, number of rounds and block |
| Aes.InverseRounds | linux-2.6.x/crypto/aes.c:394-431 | after j inverse rounds the state is the one encryption had before round nr - j |
| Aes.MixUndone | linux-2.6.x/crypto/aes.c:227-237 | InvMixColumns carried through a key addition |
| Aes.FRound | linux-2.6.x/crypto/aes.c:328-333 | four look-ups a word are SubBytes, ShiftRows, MixColumns and AddRoundKey |
| Aes.FLast | linux-2.6.x/crypto/aes.c:335-339 | the last encryption round leaves MixColumns out |
| Aes.IRound | linux-2.6.x/crypto/aes.c:381-386 | four look-ups a word are the inverse steps in forward order |
| Aes.ILast | linux-2.6.x/crypto/aes.c:388-392 | the last decryption round |
| Aes.LsBox | linux-2.6.x/crypto/aes.c:138-142 | `ls_box` is SubWord |
| AesTables.Tables.GenTabs | linux-2.6.x/crypto/aes.c:156-225 | all tables are those of the standard: powers and logarithms of 3, round constants, S-box and inverse, and the round tables with their rotations |
| AesTables.Tables.GenPowers | linux-2.6.x/crypto/aes.c:166-173 | power and logarithm table invert each other on the nonzero bytes |
| AesTables.Tables.FMult | linux-2.6.x/crypto/aes.c:116-122 | adding logarithms with byte wrap-around multiplies modulo x^8 + x^4 + x^3 + x + 1 |
| AesTables.Tables.FFMult | linux-2.6.x/crypto/aes.c:124 | the product also when a factor is zero |
| AesTables.Tables.GenBoxes | linux-2.6.x/crypto/aes.c:181-187 | the S-box is the affine map of the field inverse, and `isb_tab` inverts it |
| AesTables.Tables.GenRoundConstants | linux-2.6.x/crypto/aes.c:175-179 | the round constants are the powers of x |
| Gf256.OrderOfThree | linux-2.6.x/crypto/aes.c:166-173 | no power of 3 below 255 is 1 |
| Gf256.PowerCycle | linux-2.6.x/crypto/aes.c:166-173 | 3 to the 255 is 1 |
| Gf256.PowAdd | linux-2.6.x/crypto/aes.c:116-122 | multiplying powers of 3 adds exponents |
| Gf256.LogExists | linux-2.6.x/crypto/aes.c:166-173 | every nonzero byte is a power of 3 |
| Gf256.InvIsInverse | linux-2.6.x/crypto/aes.c:181-182 | the byte taken from the power table is the field inverse |
| AesRounds.PackStarX | linux-2.6.x/crypto/aes.c:227 | `star_x` doubles four packed bytes in the field at once |
| AesRounds.InvMixColOfMix | linux-2.6.x/crypto/aes.c:229-237 | InvMixColumns inverts MixColumns on every column |
| AesRounds.InvMixColAdd | linux-2.6.x/crypto/aes.c:229-237 | InvMixColumns is linear |
| AesRounds.SBoxInjective | linux-2.6.x/crypto/aes.c:181-187 | the S-box is one-to-one |
| AesRounds.SBoxSurjective | linux-2.6.x/crypto/aes.c:181-187 | the S-box reaches every byte |
| AesRounds.AffineAsCoded | linux-2.6.x/crypto/aes.c:183-184 | the two rotations in the code are the affine map of section 5.1.1 of FIPS 197 |
| Serpent.RoundTrip | linux-2.6.x/crypto/serpent.c:370-479 | `serpent_decrypt` undoes `serpent_encrypt` for every 132-word key and every sixteen bytes |
| Serpent.Encrypt | linux-2.6.x/crypto/serpent.c:370-426 | read and stored as little-endian words, the 32 rounds with renamed registers are the published cipher: key, S-box table, linear transformation, thirty-one times, then the last box between two keys |
| Serpent.Decrypt | linux-2.6.x/crypto/serpent.c:428-479 | the result is the sixteen bytes whose encryption was given |
| Serpent.BlockBack | linux-2.6.x/crypto/serpent.c:383-386 | storing a loaded block gives its bytes back |
| Serpent.BlockOf | linux-2.6.x/crypto/serpent.c:422-425 | loading a stored block gives its words back |
| Serpent.CipherInjective | linux-2.6.x/crypto/serpent.c:370-426 | different blocks have different encryptions under a key |
| Serpent.LTInverse | linux-2.6.x/crypto/serpent.c:50-68 | the inverse linear transformation of KL undoes that of LK |
| Serpent.LK | linux-2.6.x/crypto/serpent.c:50-59 | LK is the linear transformation followed by a round key |
| Serpent.KL | linux-2.6.x/crypto/serpent.c:61-68 | KL removes a round key and the linear transformation |
| Serpent.MixKey | linux-2.6.x/crypto/serpent.c:46-48 | K adds a round key |
| Serpent.S0 | linux-2.6.x/crypto/serpent.c:70-77 | the gate sequence computes S-box table 0 on all 32 positions, up to its register permutation |
| Serpent.S1 | linux-2.6.x/crypto/serpent.c:79-86 | the gate sequence computes S-box table 1 on all 32 positions, up to its register permutation |
| Serpent.S2 | linux-2.6.x/crypto/serpent.c:88-95 | the gate sequence computes S-box table 2 on all 32 positions, up to its register permutation |
| Serpent.S3 | linux-2.6.x/crypto/serpent.c:97-104 | the gate sequence computes S-box table 3 on all 32 positions, up to its register permutation |
| Serpent.S4 | linux-2.6.x/crypto/serpent.c:106-114 | the gate sequence computes S-box table 4 on all 32 positions, up to its register permutation |
| Serpent.S5 | linux-2.6.x/crypto/serpent.c:116-123 | the gate sequence computes S-box table 5 on all 32 positions, up to its register permutation |
| Serpent.S6 | linux-2.6.x/crypto/serpent.c:125-132 | the gate sequence computes S-box table 6 on all 32 positions, up to its register permutation |
| Serpent.S7 | linux-2.6.x/crypto/serpent.c:134-142 | the gate sequence computes S-box table 7 on all 32 positions, up to its register permutation |
| Serpent.SI0 | linux-2.6.x/crypto/serpent.c:144-150 | the gate sequence inverts S-box table 0 on all 32 positions, up to its register permutation |
| Serpent.SI1 | linux-2.6.x/crypto/serpent.c:152-159 | the gate sequence inverts S-box table 1 on all 32 positions, up to its register permutation |
| Serpent.SI2 | linux-2.6.x/crypto/serpent.c:161-167 | the gate sequence inverts S-box table 2 on all 32 positions, up to its register permutation |
| Serpent.SI3 | linux-2.6.x/crypto/serpent.c:169-176 | the gate sequence inverts S-box table 3 on all 32 positions, up to its register permutation |
| Serpent.SI4 | linux-2.6.x/crypto/serpent.c:178-185 | the gate sequence inverts S-box table 4 on all 32 positions, up to its register permutation |
| Serpent.SI5 | linux-2.6.x/crypto/serpent.c:187-194 | the gate sequence inverts S-box table 5 on all 32 positions, up to its register permutation |
| Serpent.SI6 | linux-2.6.x/crypto/serpent.c:196-203 | the gate sequence inverts S-box table 6 on all 32 positions, up to its register permutation |
| Serpent.SI7 | linux-2.6.x/crypto/serpent.c:205-212 | the gate sequence inverts S-box table 7 on all 32 positions, up to its register permutation |
| Sha1Transform.Transform | linux-2.6.x/crypto/sha1.c:59-105 | sixteen big-endian words, eighty unrolled steps with sixteen schedule words and renamed registers are the compression function of section 6.1.2 of FIPS 180-2 for every state and block of 64 bytes |
| Sha1Transform.Load | linux-2.6.x/crypto/sha1.c:64-66 | the work area gets the sixteen big-endian words of the block |
| Sha1Transform.Round | linux-2.6.x/crypto/sha1.c:43-50 | R0 to R4 with renamed registers make one step of the standard |
| Sha1Transform.Blk | linux-2.6.x/crypto/sha1.c:37-40 | the circular schedule holds the last sixteen words of the eighty-word schedule |
| Sha1Transform.CodedIsF | linux-2.6.x/crypto/sha1.c:43-50 | the round functions as coded are Ch, Parity and Maj |
| Digest.Absorber.Absorb | linux-2.6.x/crypto/sha256.c:267-281 | buffering, with the loop test in 32 bits: for every split the state is the compression function folded over the whole blocks so far and the buffer holds the rest |
| Digest.LoopFits | linux-2.6.x/crypto/sha256.c:272-274 | the 32-bit sum in the test of the block loop never wraps if and only if the bytes in the buffer and those of the call are fewer than 2^32 |
| Digest.Absorber.PadInPlace | linux-2.6.x/crypto/md5.c:190-210 | padding written into the block gives the fold over the padded message, in one block or two |
| Digest.PadLenFits | linux-2.6.x/crypto/sha1.c:159-162 | the padding length up to the length field is the one of the standard |
| Digest.ZerosLeast | linux-2.6.x/crypto/sha1.c:159-162 | no shorter padding fills a block |
| Digest.PaddedFills | linux-2.6.x/crypto/sha1.c:159-162 | the padded message is a whole number of blocks |
| Sha.Sha1.Update | linux-2.6.x/crypto/sha1.c:119-137 | appends to the message; the count stays exact if and only if the piece is under 2^29 bytes |
| Sha.Sha1.Final | linux-2.6.x/crypto/sha1.c:141-178 | the digest of the padded message with the count as length; that of FIPS 180-2 when the count is exact |
| Sha.Count64Exact | linux-2.6.x/crypto/sha1.c:124-125 | a 64-bit count to which a 32-bit shift is added stays exact if and only if the length is under 2^29 |
| Sha.Count64Loses | linux-2.6.x/crypto/sha1.c:124-125 | 2^29 bytes leave a count of zero at zero |
| Sha.GuardFits | linux-2.6.x/crypto/sha1.c:127 | the 32-bit test for a full block in `sha1_update` is right if and only if the bytes in the buffer and those of the call are fewer than 2^32 |
| Sha.Sha256.Update | linux-2.6.x/crypto/sha256.c:252-282 | appends to the message; the new count; it stays exact if and only if the piece is under 2^29 bytes or the low word wraps |
| Sha.Sha256.Final | linux-2.6.x/crypto/sha256.c:284-323 | the digest of the padded message with the count as length; that of FIPS 180-2 when the count is exact |
| Sha.Count2Exact | linux-2.6.x/crypto/sha256.c:260-264 | exactly when the two-word count is right after an update |
| Sha.Count2Loses | linux-2.6.x/crypto/sha256.c:260-264 | 2^29 bytes leave a count of zero at zero |
| Sha.Sha512.Update | linux-2.6.x/crypto/sha512.c:194-232 | appends to the message; the new count; exactly when the four-word count is right afterwards |
| Sha.Sha512.Final | linux-2.6.x/crypto/sha512.c:234-295 | the digest of the padded message with the count as length; that of FIPS 180-2 when the count is exact |
| Sha.Sha512.Final384 | linux-2.6.x/crypto/sha512.c:297-306 | the first six of the eight words; those of FIPS 180-2 when the count is exact |
| Sha.AddExact | linux-2.6.x/crypto/sha512.c:204-210 | the four-word count is right if and only if no bits are shifted out, or the low word wraps and the bits then added do not overflow the second word |
| Sha.AddLoses | linux-2.6.x/crypto/sha512.c:204-210 | a length whose shifted-out bits are dropped, and a count and length that lose the carry out of the second word |
| Sha.Sha1InPieces | linux-2.6.x/crypto/digest.c:69-84 | the SHA-1 digest depends on the message and the count alone, for every way of cutting it that fits the loop index; it is that of FIPS 180-2 when the count is exact |
| Sha.Sha256InPieces | linux-2.6.x/crypto/digest.c:69-84 | the same for SHA-256 |
| Sha.Sha512InPieces | linux-2.6.x/crypto/digest.c:69-84 | the same for SHA-512 |
| Sha.ShortExact64 | linux-2.6.x/crypto/sha1.c:124-125 | the SHA-1 count of any number of pieces shorter than 2^29 bytes is exact |
| Sha.ShortExact2 | linux-2.6.x/crypto/sha256.c:260-264 | the same for SHA-256 |
| Sha.ShortExact4 | linux-2.6.x/crypto/sha512.c:204-210 | the same for SHA-512 |
| Sha1Digest.InPieces | linux-2.6.x/crypto/sha1.c:59-178 | init, updates and final with the real compression function and initial state give SHA-1 of the message, for pieces shorter than 2^29 bytes |
| Md5.Md5Ctx.Update | linux-2.6.x/crypto/md5.c:160-188 | appends to the message, for every length |
| Md5.Md5Ctx.Final | linux-2.6.x/crypto/md5.c:190-214 | the digest bytes of RFC 1321, sections 3.1 to 3.5, for every message |
| Md5.InPieces | linux-2.6.x/crypto/digest.c:69-84 | the MD5 digest does not depend on how the message is cut up |
| Wp512.Ctx.Update | linux-2.6.x/crypto/wp512.c:1003-1062 | the bit-oriented update appends bytes: all of them if and only if there are fewer than 2^29; the next buffer byte is clear, the bit position is eight times the byte position |
| Wp512.Ctx.AddBits | linux-2.6.x/crypto/wp512.c:1018-1024 | the carry loop with early exit adds modulo 2^256 |
| Wp512.Ctx.PutByte | linux-2.6.x/crypto/wp512.c:1025-1038 | one byte is or-ed into a clear position, and a full buffer is hashed |
| Wp512.Ctx.Final | linux-2.6.x/crypto/wp512.c:1064-1104 | the digest of the padded message with the 256-bit count |
| Wp512.InPieces | linux-2.6.x/crypto/digest.c:69-84 | for pieces of every length, the digest is that of the first bytes of each piece, as many as its length modulo 2^29, put together; how they were cut up otherwise does not matter |
| Wp512.TakesAll | linux-2.6.x/crypto/wp512.c:1003-1062 | all of a piece is taken if and only if it is shorter than 2^29 bytes |
| Wp512.HalfGigabyteLost | linux-2.6.x/crypto/wp512.c:1003-1062 | of a piece of 2^29 bytes nothing is taken |
| Wp512.InShortPieces | linux-2.6.x/crypto/digest.c:69-84 | the digest of pieces shorter than 2^29 bytes is that of the message, however it is cut up |
| Hmac.Tfm.Hmac | linux-2.6.x/crypto/hmac.c:122-128 | for every key and fragmented message, H((K0 xor opad) || H((K0 xor ipad) || m)) of section 2 of RFC 2104; a long key is hashed once; on the context of "sha1", for keys shorter than 2^29 bytes |
| Hmac.Sha1Hmac | linux-2.6.x/crypto/hmac.c:122-128 | `crypto_hmac` on the context of "sha1" is HMAC-SHA-1, down to the compression function, of every key shorter than 2^29 bytes and every fragmented message |
| Hmac.Alg.Init | linux-2.6.x/crypto/digest.c:21-24 | an algorithm, whatever was done to it before, starts anew with nothing fed |
| Hmac.Alg.Update | linux-2.6.x/crypto/digest.c:43-45 | what is fed is appended; a final still gives its digest, with "sha1" when the piece is shorter than 2^29 bytes |
| Hmac.Alg.Final | linux-2.6.x/crypto/digest.c:55-58 | the digest of all that was fed since init; the context is wiped |
| Hmac.Tfm.HmacInit | linux-2.6.x/crypto/hmac.c:56-79 | the effective key is left with the caller, with "sha1" for keys shorter than 2^29 bytes, and the inner hash is fed K0 xor ipad |
| Hmac.Tfm.HmacFinal | linux-2.6.x/crypto/hmac.c:87-120 | the outer hash over K0 xor opad and an inner digest: that of what was fed for a key no longer than a block; a longer key is replaced by its digest, and the inner digest is lost |
| Hmac.Tfm.HashKey | linux-2.6.x/crypto/hmac.c:24-33 | the key is replaced by its digest, with "sha1" for keys shorter than 2^29 bytes |
| Hmac.Tfm.PadBlock | linux-2.6.x/crypto/hmac.c:67-71 | the key, zeros to a block, every byte xored |
| Hmac.Tfm.Update | linux-2.6.x/crypto/digest.c:26-53 | segments cut at page ends are fed in order, empty ones included |
| Hmac.Tfm.FeedSegment | linux-2.6.x/crypto/digest.c:36-51 | the loop over the pages of one segment |
| BlockClaim.Disk.ClaimDisk | linux-2.6.x/fs/block_dev.c:446-479 | a disk is claimed if and only if no other holder has it and no partition is held; the counts stay in balance |
| BlockClaim.Disk.ClaimPart | linux-2.6.x/fs/block_dev.c:446-479 | a partition is claimed if and only if the disk has no holder of its own and no other holder has the partition |
| BlockClaim.Disk.ReleaseDisk | linux-2.6.x/fs/block_dev.c:483-491 | a matched release of the disk |
| BlockClaim.Disk.ReleasePart | linux-2.6.x/fs/block_dev.c:483-491 | a matched release of a partition |
| BlockClaim.Disk.Exclusive | linux-2.6.x/fs/block_dev.c:446-491 | no device has two holders, a held disk has no held partition, and the disk's `bd_holders` is twice its own claims plus the sum of its partitions' claims |
| BlockClaim.Disk.DecideDisk | linux-2.6.x/fs/block_dev.c:451-464 | the decision on a disk, in terms of the claims in force |
| BlockClaim.Disk.DecidePart | linux-2.6.x/fs/block_dev.c:451-464 | the decision on a partition |
| BlockOpen.Disk.OpenDisk | linux-2.6.x/fs/block_dev.c:560-660 | an open of the disk keeps the accounts; a failed one drops the caller's reference and restores every count |
| BlockOpen.Disk.CloseDisk | linux-2.6.x/fs/block_dev.c:711-752 | a close of the disk keeps the accounts |
| BlockOpen.Disk.OpenPart | linux-2.6.x/fs/block_dev.c:560-660 | an open of a partition succeeds exactly when every step does, keeps the accounts, and otherwise restores every count |
| BlockOpen.Disk.FirstOpen | linux-2.6.x/fs/block_dev.c:597-624 | the first open of a partition opens the disk, and undoes it when the partition is unusable |
| BlockOpen.Disk.ClosePart | linux-2.6.x/fs/block_dev.c:711-752 | a close of a partition keeps the accounts; the last one closes the disk |
| BlockOpen.Disk.OpenWhole | linux-2.6.x/fs/block_dev.c:560-660 | `do_open` on the disk: the new counts, or the old ones |
| BlockOpen.Disk.PutWhole | linux-2.6.x/fs/block_dev.c:711-752 | `blkdev_put` on the disk |
| BlockOpen.Disk.Accounts | linux-2.6.x/fs/block_dev.c:560-752 | `bd_part_count` is the sum of the partitions' openers, `bd_openers` the direct opens plus the open partitions; a gendisk reference is held exactly for each device that is open; a closed disk has no open partition |
| BioPair.Pair.constructor | linux-2.6.x/fs/bio.c:877-910 | the halves partition the sectors and the page of the master |
| BioPair.Pair.End1 | linux-2.6.x/fs/bio.c:845-857 | a completion of the first half by any number of bytes, up to the release |
| BioPair.Pair.End2 | linux-2.6.x/fs/bio.c:859-871 | a completion of the second half by any number of bytes, up to the release |
| BioPair.Pair.Release | linux-2.6.x/fs/bio.c:835-843 | the counter, whoever drops it |
| BioPair.Pair.EndedOnce | linux-2.6.x/fs/bio.c:817-871 | in every interleaving the master is ended at most once, exactly when all three releases are in and both halves are at zero, for its full size, with an error exactly when a half reported one |
| ElfCore.ElfCoreDump | linux-2.6.x/fs/binfmt_elf.c:1786-1893 | when no write fails and the limit is not hit, the position is the planned offset, and up to it the file, continued with zeros, is the planned image - headers, notes, fill, areas - with every area at its `p_offset`; the file itself is a prefix of it, shorter by exactly the hole that the last notes and pages leave, and holds an area in full if and only if the area ends in that prefix |
| ElfCore.HoleClosed | linux-2.6.x/fs/binfmt_elf.c:1847-1883 | nothing is missing at the end of the file if and only if the last page dumped is data, or no page is dumped and nothing is sought over before the areas: in `ElfCoreDump` neither the fill of the last note nor that from the notes to `dataoff` |
| ElfCore.AreasHoleIs | linux-2.6.x/fs/binfmt_elf.c:1847-1883 | the hole at the end depends on the pages of the dumped areas in order, not on how areas cut them |
| ElfCore.ZeroPageLost | linux-2.6.x/fs/binfmt_elf.c:1861-1866 | one dumpable area whose only page is the zero page leaves a hole of a page at the end, all that its program header promises |
| ElfCore.WriteNote | linux-2.6.x/fs/binfmt_elf.c:1445-1461 | at a multiple of four, `writenote` appends exactly the note with its fill, the last fill as a hole |
| ElfCore.NoteImageSize | linux-2.6.x/fs/binfmt_elf.c:1429-1438 | that is `notesize` bytes, a multiple of four |
| ElfCore.NotesSize | linux-2.6.x/fs/binfmt_elf.c:1790-1803 | the size planned for the notes is the size of their image |
| ElfCore.WriteNotes | linux-2.6.x/fs/binfmt_elf.c:1834-1845 | the notes section is the concatenation of the notes, with the hole of the last at the end |
| ElfCore.WritePhdrs | linux-2.6.x/fs/binfmt_elf.c:1805-1828 | program headers are written while offsets run on from one area to the next |
| ElfCore.WritePages | linux-2.6.x/fs/binfmt_elf.c:1855-1882 | data pages are written and the others left as holes of a page; the hole that remains at the end |
| ElfCore.WriteAreas | linux-2.6.x/fs/binfmt_elf.c:1847-1883 | areas worth dumping follow one another; the hole that remains at the end |
| ElfCore.AreasAt | linux-2.6.x/fs/binfmt_elf.c:1808-1883 | the bytes of every area start at the offset in its program header |
| ElfCore.EndIs | linux-2.6.x/fs/binfmt_elf.c:1808-1824 | planned offsets are sums of the sizes of the area images |

## Left out

- AioContext.StepKeeps: the context is a value that steps replace, so updating in place and the list structures are not modelled as such; nor is the order of requests on the run lists, a thread takes any request from its private list.
- AioContext.ReferencesBalance: memory barriers, the wait loops of `read_events` and `wait_for_all_aios`, synchronous requests, `use_mm`, and the `BUG_ON` about the wait entry of a request whose retry method returns a result are not modelled; nor is the `io_destroy` of `sys_io_setup`, which has no look-up reference.
- AioKicks.FreedInFlight: the runs are those up to the next `queue_kicked_iocb` of the request, by whichever kick; a later kick is judged by the state it finds.
- AioRing.SlotInside: sizes are unbounded integers; the limit `ioctx_alloc` puts on them keeps the 32-bit arithmetic of the source exact.
- CipherDriver.Process: xor is by bytes and not by 32-bit words.
- CipherDriver.Crypt: a block function is taken to read its input before it writes its output.
- Scatterwalk.ScatterWalk.CopyIn: one method of the source copies in both directions; here it is two. Kernel mappings and cache flushes are left out.
- Aes.FRound: the words b0 and b1 are values and not arrays.
- Serpent.Encrypt: words are sequences of 32 bits; the key schedule and the byte-reversed variant are left out.
- Sha1Transform.Transform: wiping the work area is left out.
- Sha.Sha1.Update: calls that wrap the 32-bit sums of the source, see `Sha.GuardFits` and `Digest.LoopFits`, are left out: SHA-1 then takes all of the data for the rest of a block and copies it into the buffer, the loops of SHA-256 and SHA-512 run past the data; contexts are not wiped after `final`.
- Hmac.Sha1Hmac: of a key of 2^29 bytes or more, which "sha1" hashes with a wrong count, the result is not stated.
- Wp512.Ctx.Final: `wp512_process_buffer` is a parameter, and the truncated variants are left out.
- Hmac.Tfm.HmacFinal: for a key longer than a block the inner digest is some digest-sized string, what a final on a wiped context puts out; `crypto_hmac` never gets there.
- Hmac.Alg.Update: a digest algorithm other than "sha1" is a function of everything fed to it.
- BlockOpen.Disk.OpenPart: opens and closes happen one at a time; module references, sizes and partition rescans are left out.
- BlockClaim.Disk.ClaimDisk: holders are never the marker `bd_claim` itself, and releases match claims.
- BioPair.Pair.End1: completions of a half stop when it is at zero, and a bio is split strictly inside.
- ElfCore.ElfCoreDump: gathering the registers and notes, the extra program headers of some architectures, and the bytes of the structures are left out; areas are whole pages.
- The other ciphers and digests of `crypto/`, the compression and CRC wrappers, and the rest of `fs/` are left out: repetitions of arguments made here, or plumbing.
