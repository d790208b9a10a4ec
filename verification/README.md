# libdvdcss in Dafny

libdvdcss reads video DVDs that are protected by the Content Scrambling System (CSS). This project
models the parts of it that compute and keep state, and proves what they compute:

- **CssTables** the lookup tables, as functions on bytes, and the algebra behind them.
- **Combiner** the key stream generator: two shift registers whose bit streams are added with carry,
  bit by bit, as integer addition, and byte by byte.
- **Sector** descrambling a sector in place, its inverse, and clearing the scrambling bits.
- **Mangling** the cipher for disc keys and title keys, on a mirrored register.
- **KeyCipher** the cipher of the authentication protocol, bit-serial and in six rounds.
- **TitleKeyAttack**, **TitleKeySearch** recovering a title key from ten known bytes: what the search
  accepts, and the loops that run it.
- **DiscKeyAttack**, **DiscKeySearch**, **DiscKeyLimits** reversing the hash of a disc key: the
  equations, the tables and loops, and what no such search can do.
- **DiscKey** disc keys by player keys, and what the drive sends under the mask of the bus key.
- **TitleScan** scanning a title for a block to attack.
- **Handshake**, **HostAnswers**, **KnownSession** mutual authentication with the drive, why the host finds
  its variant, and one session byte by byte.
- **TitleKeys** the sorted list of title keys with its cache of text files, and the seek that checks keys.
- **Reading** the contiguous and the scattered read, descrambling in place.
- **Device** the position of the device under short reads.
- **KnownValues** a sector, a disc key and a title key, byte by byte.

Registers and bytes are bit vectors of the width that matters. A 32-bit variable that gathers left-over
high bits is a `bv32`; the lemmas about it say which of its bits are the register. Buffers are arrays,
and each C function that loops or writes is a method proved against a specification function. The
structure `dvdcss_t` appears in `Handshake`, `TitleKeys`, `Reading` and `Device` as the class of the
fields that the functions modelled there use. A drive, a file, a cache directory and the raw reads are
objects whose every reply is a free choice, and they record the calls with their replies; contracts about
them speak of these records. Whether memory is to be had is a parameter.

The three forms of the generator in the C code, bit-serial in `CryptKey`, byte-wise on a mirrored
register in `DecryptKey` and byte-wise on a left-shifting register in `dvdcss_unscramble`, are all proved
to be the one machine of `Combiner`.

Bit-vector proofs are kept small on purpose: a lemma about operators states one equation, and the lemmas
above it treat the functions involved as unknown (`hide`).

## What does not hold

Some properties that the code or its comments suggest are false of the code. Each is shown to fail, and
the exact condition under which it holds is proved.

- `CryptKey` is not a bijection. One of its three combined tables merges every byte with its complement,
  twice over: `KeysCollideExactly` says which inputs collide, `NoKeyHasOneInput` that all do, and
  `KeyComesOutExactly` which keys can come out.
- `RecoverTitleKey` can return a key that does not explain the text, because the first backward step
  masks away the top bits of the first deduced byte and nothing checks them again
  (`AcceptedIsNotAlwaysSound`, `SearchIsNotAlwaysSound`), and `AttackPattern` hands such a key on
  (`AttackIsNotAlwaysSound`). The key explains the text if and only if it reproduces the first byte
  (`ExplainsExactly`, `YieldedKeyIsRightExactly`).
- `CrackDiscKey` returns 0 when it has found nothing. Then the key it leaves is no key, and there are
  hashes for which this happens (`KeylessHashGoesUnnoticed`). What it leaves is a key if and only if there is any
  (`CrackedIsKey`). A hash may have several keys (`HashDoesNotNameItsKey`), so the one found, the first in the
  order of the loops, need not be the one hashed (`LaterKeyIsNotLeft`).
- `dvdcss_readv` does not look for the all-zero key, which `dvdcss_read` takes for "not encrypted". The two
  agree with that key if and only if no block delivered has anything to clear
  (`ScatteredIsContiguous`, `ScatteredNeedNotBeContiguous`).
- `dvdcss_readv` checks the length of a buffer only when it already stands in it. It runs past a buffer
  that it enters with less than a block, unless that is the very first one, and descrambles one block of
  a later buffer that is longer but not whole blocks before it notices, if it still notices
  (`Reading.Overruns`, `Reading.Reached`, `CheckComesLate`). With buffers of whole blocks neither happens (`WholeBuffersAreDone`).
- `libc_read` entered without a known position claims a wrong one exactly if it delivers all of at least
  one block (`Device.Dvdcss.Read`).
- `AttackPattern` skips one byte of each cycle, so a run need not be periodic. It is if and only if that
  byte fits as well (`CyclesArePeriodic`, `RunNeedNotBePeriodic`). Its comment asks for twenty repeated
  bytes, the code for four: with less than ten bytes in the whole cycles the guess runs on into the
  scrambled bytes (`GuessContinues`, `GuessNeedNotContinue`).
- A title key that happens to encrypt to zero is taken for the absence of a key (`TitleKeyArrivesExactly`,
  `LostKeyDoesNotArrive`).

Three fears turn out unfounded: the fixed challenge of the host tells all 32 variants apart
(`AnswersDiffer`), no row of the table of k1 ever overflows (`K1RowIsShort`), and no two seeds
share a place in the big table and none is empty (`SeedsDoNotCollide`, `EveryPlaceIsTaken`), so `CrackDiscKey` misses no key without any
assumption about its tables.

## Model

| member | source | states |
|---|---|---|
| CssTables.CssTab1IsPermutation | src/csstables.h:36-70 | the substitution of scrambled bytes is a permutation: an explicit gate-level inverse undoes it from both sides |
| CssTables.CssTab1IsGates | src/csstables.h:36-70 | the 256 entries are four small gates and eight output bits |
| CssTables.CssTab1FibersAreSmall | src/csstables.h:36-70 | two bytes that agree in `tab1[u] ^ u` and in their low three bits are equal, so at most eight bytes share that value |
| CssTables.CssTab2IsXorOfShifts | src/csstables.h:72-106 | entry x is x ^ (x >> 3) ^ (x >> 6) |
| CssTables.CssTab3IsXorOfShifts | src/csstables.h:108-174 | an entry depends on the low three bits y of its index only, as (y << 5) ^ (y << 2) ^ (y >> 1) |
| CssTables.CssTab4IsBitReversal | src/csstables.h:176-210 | the table reverses the bits of a byte, and doing so twice gives the byte back |
| CssTables.CssTab5IsComplementOfCssTab4 | src/csstables.h:212-246 | every entry is the complement of the reversed byte |
| CssTables.Combined12IsPermutation | src/css.c:921 | `tab1[x] ^ ~tab2[x]` is a permutation, with its inverse |
| CssTables.Combined23IsPermutation | src/css.c:923 | `tab2[x] ^ tab3[x]` is a permutation, with its inverse |
| CssTables.Combined02IsXorWithRotation | src/css.c:942 | `tab0[x] ^ tab2[x]` is a byte xored with itself rotated by one bit |
| CssTables.Combined02MergesComplements | src/css.c:942 | that table merges every byte with its complement and no other bytes: it is not a permutation |
| Combiner.SumBitsAreIntegerSum | src/css.c:886-905 | the first n emitted bits and the last carry are, as a binary number, the sum of the two (complemented) register streams, for every n |
| Combiner.Shift0IsReversible | src/css.c:891-893 | every state of the 25-bit register has exactly one predecessor |
| Combiner.Shift1IsReversible | src/css.c:895-896 | every state of the 17-bit register has exactly one predecessor |
| Combiner.RegistersNeverVanish | src/css.c:875-881 | after any number of steps a register is zero if and only if it was zero to begin with |
| Combiner.SeededRegistersNeverVanish | src/css.c:875-881 | from any key, neither register is ever all zero: the purpose of the bits that seeding sets |
| Combiner.EightShifts0 | src/css.c:577-579 | eight single-bit steps of the 25-bit register are one byte step |
| Combiner.EightShifts1 | src/css.c:573-575 | eight single-bit steps of the 17-bit register are one byte step |
| Combiner.AddRipples | src/css.c:898-901 | adding two bytes and a carry is eight full adders in a row |
| Combiner.ByteStepIsEightBitSteps | src/css.c:573-584 | one byte step moves the generator as eight bit steps do and emits their eight sum bits |
| Combiner.BytesAreBits | src/css.c:571-585 | for streams of any length the byte machine emits exactly the bits of the bit machine, carry included |
| Combiner.ThreeFormsAreOneSum | src/css.c:1014-1028 | the streams of the three functions are sums of the same two bit streams and differ only in which of them is complemented |
| Combiner.RunShiftsRegisters | src/css.c:571-585 | the registers shift the same whatever is complemented and whatever the carries are |
| Sector.Lfsr17Step | src/css.c:573-575 | the table lookups of the 17-bit register are its byte step |
| Sector.Lfsr25Step | src/css.c:577-578 | the nested shifts of a 32-bit word with left-over high bits are the byte of the 25-bit register |
| Sector.IterationIsStep | src/css.c:573-584 | one iteration on the five C variables is one step of the generator, and the carry left over never exceeds 1 |
| Sector.SeedingIsSeeded | src/css.c:561-569 | the arithmetic of the seeding inserts the guard bits of the generator, for key xor sector seed |
| Sector.Unscramble | src/css.c:550-588 | in place, the sector becomes its descrambled form and the rest of the buffer stays; the stream depends on key and bytes 0x54 to 0x58 alone |
| Sector.UnscrambleScrambles | src/css.c:550-588 | descrambling undoes the scrambler built from the inverse of p_css_tab1, for every key and sector |
| Sector.ScrambleUnscrambles | src/css.c:550-588 | scrambling undoes descrambling, for every key and sector |
| Sector.KeyAndSeedAreXored | src/css.c:561-565 | xoring byte i of the key and byte 0x54 + i of the sector with the same value, for i from 0 to 4, leaves every descrambled byte from 0x80 on as it was |
| Sector.StaysExactly | src/css.c:555-559 | a sector stays as it is under every key if and only if its PES_scrambling_control is zero |
| Sector.KeysDifferByStreams | src/css.c:571-585 | under two keys, byte n of the scrambled part differs by exactly what byte n of the two streams does, for each of the 0x780 bytes |
| KnownValues.SectorIsKnown | src/css.c:550-588 | the first five descrambled bytes of a given sector with five different key bytes and five different seed bytes |
| Sector.DescrambledOnce | src/libdvdcss.c:747-748 | a second pass over a descrambled and cleared sector changes nothing, even with another key |
| TitleKeyAttack.PredecessorIsUnique | src/css.c:1442-1458 | the register eight bits earlier is determined by the state, so each 256-way search finds one byte |
| TitleKeyAttack.RewoundReverses | src/css.c:1442-1458 | running the register back n bytes and forward again gives the state, both ways round |
| TitleKeyAttack.DeductionRetraces | src/css.c:1391-1414 | deduction from the pad bytes that a generator emits retraces carry and 17-bit register, and the part of the 25-bit register seen so far |
| TitleKeyAttack.SearchIsComplete | src/css.c:1383-1475 | if a key explains the ten bytes, the try made of its first two bytes is accepted and stands for exactly that key |
| TitleKeyAttack.KeyReachesCandidate | src/css.c:1416-1458 | the generator started from an accepted key has, after four bytes, the candidate state of both registers |
| TitleKeyAttack.AcceptedKeyExplains | src/css.c:1419-1475 | an accepted key explains all ten bytes if and only if it reproduces the first one |
| TitleKeyAttack.ExplainsExactly | src/css.c:1383-1475 | soundness and completeness in one: when a key explains the text |
| TitleKeyAttack.AcceptedIsNotAlwaysSound | src/css.c:1450 | a concrete text whose very last try is accepted with a key that does not reproduce it: the top bits of the first deduced byte are masked away and never checked again |
| TitleKeySearch.DeduceState | src/css.c:1385-1414 | the deduction loop computes the deduced generator |
| TitleKeySearch.Validate | src/css.c:1419-1436 | the loop gets to 10 exactly if the candidate emits bytes 4 to 9 |
| TitleKeySearch.StepBack | src/css.c:1444-1457 | the 256-way search finds the predecessor |
| TitleKeySearch.StepsBack | src/css.c:1441-1458 | four searches give the state four bytes earlier |
| TitleKeySearch.MatchSeed | src/css.c:1460-1473 | the eight-way loop matches exactly the states with bit 3 set and writes their 24-bit seed |
| TitleKeySearch.RecoverTitleKey | src/css.c:1367-1487 | returns one more than the largest accepted try from the start value on, with its key, and -1 with the key untouched if there is none; a start value that is negative or too large finds nothing |
| TitleKeySearch.NoKeyIsMissed | src/css.c:1378-1486 | a search from 0 returns more than the try of every key that explains the text, so -1 means that no key does |
| TitleKeySearch.SearchIsNotAlwaysSound | src/css.c:1378-1486 | whatever a search of all tries returns on that text, it is the last try, whose key does not explain the text |
| TitleKeySearch.ExplainsIsDescrambling | src/css.c:571-585 | explaining the text is descrambling the first ten scrambled bytes of the sector to the guessed ones |
| Mangling.MirroredStep | src/css.c:1021-1022 | the feedback of the mirrored register is the mirrored byte of the register |
| Mangling.MirroredIterationIsStep | src/css.c:1016-1027 | one iteration on the mirrored registers is one step of the generator |
| Mangling.MirroredSeeding | src/css.c:1001-1011 | the mirrored seed words are the seeded generator |
| Mangling.KeyStream | src/css.c:1013-1028 | the loop emits the five stream bytes of the generator |
| Mangling.DecryptionIsBijective | src/css.c:1030-1040 | for every key and invert byte, decryption is a bijection on five-byte blocks, with an explicit inverse |
| Mangling.DecryptKey | src/css.c:989-1043 | the result array gets the decrypted block, also when it is the array that is decrypted or that holds the key |
| DiscKeyAttack.FixedPointIsRebuilt | src/css.c:1273-1320 | every fixed point satisfies the equations by which the search derives k0, B4, k4, B1, B3, k3, B2 and k2 from it, and passes the final test |
| DiscKeyAttack.K1RowEntries | src/css.c:1199-1215 | a row has exactly the values k1 that satisfy its equation |
| DiscKeyAttack.K1RowIsShort | src/css.c:1209-1212 | no row has more than eight entries |
| DiscKeyAttack.StreamOutputs | src/css.c:1289-1296 | outputs 1, 2 and 5 of the 25-bit register follow from k0, k1, k4 and the carries |
| DiscKeyAttack.OutputsNameTheSeed | src/css.c:1227-1246 | equal outputs 1, 2 and 5 mean equal registers |
| DiscKeyAttack.SeedsDoNotCollide | src/css.c:1245 | no two seeds share an index: nothing in the big table is ever overwritten |
| DiscKeyAttack.EveryPlaceIsTaken | src/css.c:1217-1246 | as many places as seeds: every place of the big table has its seed, none keeps the zero it was allocated with |
| DiscKeyAttack.PlaceIsGuess | src/css.c:1273-1324 | the seed of a fixed point is at the place of a guess of b0, k1 and carry if and only if that is its true guess, so no wrong guess ever hits |
| DiscKeyAttack.FirstIsUnique | src/css.c:1253-1346 | no two keys of a hash share start, b0, k1 and carry, so the first of them in the order of the loops is one and the same |
| DiscKeySearch.RowHasRoom | src/css.c:1209-1212 | the guard that would drop an entry never fires |
| DiscKeySearch.BuildK1Table | src/css.c:1193-1215 | every row of ten bytes holds the count and the values of its row |
| DiscKeySearch.BuildBigTable | src/css.c:1217-1246 | every 24-bit seed is found at the index of its outputs, and the range check never fails |
| DiscKeySearch.Investigate | src/css.c:1158-1165 | true exactly for the fixed points of the hash |
| DiscKeySearch.TestSeed | src/css.c:1305-1320 | a hit exactly if the candidate with this seed passes the test and is a fixed point |
| DiscKeySearch.TriedIsHit | src/css.c:1305-1345 | the candidate of a guess is a hit if and only if it is the fixed point that has this very guess |
| DiscKeySearch.TryK1 | src/css.c:1286-1345 | a hit is the first fixed point with these first bytes, this B0 and this k1, the one without the carry before the one with it; a miss excludes them all and leaves the second candidate |
| DiscKeySearch.RowAscends | src/css.c:1193-1215 | the entries of a row ascend, so the loop over them tries the smallest k1 first |
| DiscKeySearch.TryB0 | src/css.c:1276-1346 | a hit is the first fixed point with these first bytes and this B0; a miss excludes them all and leaves the candidate of the last entry, or the old one if the row is empty |
| DiscKeySearch.TryStart | src/css.c:1255-1347 | a hit is the first fixed point that starts with these two bytes; a miss excludes them all and leaves the second candidate of the last guess |
| DiscKeySearch.CrackDiscKey | src/css.c:1167-1358 | 0 if both tables get memory, with the first key of the hash in the order of start, B0, k1 and carry if it has any, and otherwise with what the last guess of the last start leaves; -1 without memory, with the hash untouched |
| DiscKeySearch.CrackedIsKey | src/css.c:1158-1165 | what is left is a key of the hash if and only if it has any |
| DiscKeySearch.CrackIsDetermined | src/css.c:1167-1358 | hash and memory determine the result and all five bytes left, also when there is no key |
| DiscKeyLimits.HashDoesNotNameItsKey | src/css.c:1158-1165 | a concrete hash with two different keys |
| DiscKeyLimits.LaterKeyIsNotLeft | src/css.c:1253-1347 | of the two keys of that hash the later one is never left |
| DiscKeyLimits.SomeHashHasNoKey | src/css.c:1158-1165 | there is a hash that no key decrypts to itself |
| DiscKeyLimits.KeylessHashGoesUnnoticed | src/css.c:1348-1357 | for such a hash whatever meets the contract of `CrackDiscKey` with memory has the result 0 and leaves no key |
| DiscKey.DecryptDiscKey | src/css.c:1095-1129 | 0 with the key of the first pair of player key and slot, in loop order, whose key decrypts the first slot to itself; -1 with a zero key if and only if no pair does |
| DiscKey.FirstPairIsFirst | src/css.c:1099-1120 | players are tried one after the other and the slots of each in ascending order |
| DiscKey.PlayerOfDiscWorks | src/css.c:1103-1119 | a player whose slot holds the disc key encrypted with its own works, if the block begins with the disc key encrypted with itself |
| DiscKey.DecryptTitleKey | src/css.c:1138-1141 | decrypts in place with the inverted stream |
| DiscKey.UnmaskedTwice | src/css.c:374-378 | the mask of the bus key undoes itself |
| DiscKey.MaskUnmasksToZeros | src/css.c:374-378 | the bytes of the bus key, last first and over and over, unmask to zeros, for blocks of any length |
| DiscKey.MaskIsNoKey | src/css.c:494-504 | as a title key those bytes are no key |
| DiscKey.ReceiveTitleKey | src/css.c:491-518 | unmasks the key, takes zero for none and decrypts everything else |
| DiscKey.TitleKeyArrivesExactly | src/css.c:491-518 | a title key that a drive encrypted and masked arrives, except exactly when it encrypts to zero without being zero |
| DiscKey.LostKeyDoesNotArrive | src/css.c:499-504 | a concrete title key that is taken for none, whatever the bus key |
| KnownValues.TitleKeyIsKnown | src/css.c:491-518 | five received bytes under a bus key give these five bytes of the title key |
| KnownValues.DiscKeyIsKnown | src/css.c:989-1043 | a given block decrypted with a given key as a disc key |
| DiscKey.ReceiveDiscKey | src/css.c:374-423 | the key of the first pair of player key and slot that works, and the slow method exactly if none does; a crack changes the method exactly if memory is lacking, and otherwise leaves what `CrackDiscKey` does |
| KeyCipher.BitStep | src/css.c:888-902 | one pass of the inner loop on untruncated 32-bit words is one step of the bit machine with both streams complemented |
| KeyCipher.FillBits | src/css.c:883-905 | the thirty bytes, stored last first, are the bytes of the same generator |
| KeyCipher.VariantMaskIsSpread | src/css.c:911 | the mask of a variant is its five bits spread over a byte, so no two variants share a mask |
| KeyCipher.VariantsArePermuted | src/css.c:795-803 | both rows that permute the variants are injective |
| KeyCipher.FirstTypeUsesNoRow | src/css.c:827-828 | for key type 0 the mask is the bits of the variant itself, spread |
| KeyCipher.SecondTypeUsesFirstRow | src/css.c:795-828 | for key type 1 it is the bits of the variant moved by the first row, in closed form, and spread |
| KeyCipher.ThirdTypeUsesSecondRow | src/css.c:795-828 | for key type 2 by the second row |
| KeyCipher.HalvesMakeTheChallenge | src/css.c:824-825 | a challenge and its two permuted halves determine each other |
| KeyCipher.SubstituteIsPermutation | src/css.c:920-923 | the substitution of a round is a permutation for every mask |
| KeyCipher.RoundIsReversible | src/css.c:918-924 | a chained round is a bijection on blocks, with its inverse |
| KeyCipher.FrontIsReversible | src/css.c:917-940 | everything before the first merging is a bijection |
| KeyCipher.BackIsReversible | src/css.c:957-972 | everything after the second merging is a bijection |
| KeyCipher.KeysCollideExactly | src/css.c:917-972 | two inputs give the same key if and only if the blocks that the fourth round merges are byte by byte equal or complementary |
| KeyCipher.NoKeyHasOneInput | src/css.c:936-955 | every key that comes out comes from at least 32 different inputs |
| KeyCipher.NoChallengeHasItsOwnKey | src/css.c:785-975 | to every challenge there are others with the same seed half and the same key |
| KeyCipher.KeyComesOutExactly | src/css.c:917-972 | which keys can come out at all: a parity test of the blocks before both mergings |
| KeyCipher.Permute | src/css.c:824-825 | the challenge, permuted |
| KeyCipher.Generate | src/css.c:847-905 | the seed half, masked, fills the buffer of stream bytes |
| KeyCipher.EncryptRound | src/css.c:936-943 | one round over the buffer, with or without the merging table |
| KeyCipher.Rounds | src/css.c:917-972 | the six rounds |
| KeyCipher.CryptKey | src/css.c:785-975 | the key is that of the cipher for this key type, variant and challenge |
| Handshake.FirstMatch | src/css.c:677-687 | the least variant that answers the host challenge with a key, or 32 if none does |
| Handshake.FindVariant | src/css.c:677-694 | the loop finds the least matching variant |
| Handshake.Css.AcquireAgid | src/css.c:614-640 | at most four requests are refused before the last one, and after each the next AGID in sequence is invalidated |
| Handshake.Css.GetBusKey | src/css.c:602-735 | the record of a run: 0 exactly if all five calls went through, with the key of the bus; -1 with the key unchanged and the granted AGID given back |
| Handshake.Css.AskDrive | src/css.c:642-694 | the host challenge is sent and the answer matched |
| Handshake.Css.AnswerDrive | src/css.c:696-733 | the challenge of the drive is answered and the bus key made of both keys |
| Handshake.AbandonedIsInvalidatedOnce | src/css.c:655-725 | a failure after the grant invalidates the granted AGID exactly once and no other |
| Handshake.CompletedIsNeverInvalidated | src/css.c:727-735 | a session that succeeded keeps its AGID |
| Handshake.VariantIsFound | src/css.c:677-687 | an honest answer is matched, and by the variant of the drive if no smaller one gives the same answer |
| Handshake.BothSidesAgree | src/css.c:696-735 | for any cipher, host and drive end with the same bus key, and the host sent the second key that the drive expects, through all byte reversals, if no smaller variant gives the same answer |
| Handshake.HonestDriveIsAuthenticated | src/css.c:677-694 | with an honest drive a session is given up only because a call failed |
| HostAnswers.AnswerIsCrypted | src/css.c:917-972 | the six rounds on the two halves of that challenge, for every mask, without tables or branches |
| HostAnswers.AnswersDiffer | src/css.c:642-694 | the 32 variants answer the constant challenge of the host with 32 different keys |
| HostAnswers.LibraryAndDriveAgree | src/css.c:677-735 | with `CryptKey` for the cipher there is no condition: the host finds the very variant of the drive, sends the second key that it expects and holds its bus key |
| KnownSession.SessionIsKnown | src/css.c:602-735 | with a drive of variant 5 and a given challenge: every byte of the four buffers as they cross the interface, and the five bytes of the bus key; it fixes all three key types, the permutations of the challenge and every reversal |
| TitleKeys.PrintedKeyIsParsed | src/css.c:237-287 | the text written for a key parses back to that key |
| TitleKeys.TextOfKey | src/css.c:277-284 | the very characters written for a key with digits of both kinds |
| TitleKeys.TextIsRead | src/css.c:237-247 | what the conversion makes of a prefix, capitals, a sign, white space and a text without digits |
| TitleKeys.StoreIsLocal | src/css.c:273-296 | writing creates the file and changes only its first characters, and no other file |
| TitleKeys.StoredKeyIsFound | src/css.c:277-296 | whatever the file held before, the written text is what a later read parses |
| TitleKeys.StoredKeyCostsNoDrive | src/css.c:221-296 | once a key is written out, a later check that reads its text gets that key, asks no drive and writes nothing |
| TitleKeys.NoKeyIsCachedToo | src/css.c:257-290 | what the drive found is written to the cache exactly if it did not fail, also for a title that is not encrypted |
| TitleKeys.InsertedInOrder | src/css.c:298-330 | a node linked in at its place keeps the list strictly sorted |
| TitleKeys.InsertedIsKnown | src/css.c:298-330 | and adds its key to the map that the list stands for |
| TitleKeys.BlocksDiffer | src/css.c:298-330 | no block has two nodes in the list |
| TitleKeys.Dvdcss.Find | src/css.c:204-219 | the first loop stops at a node of this block exactly if the block is known |
| TitleKeys.Dvdcss.FindPlace | src/css.c:298-308 | the second loop stops at the known block with the greatest smaller start, between the smaller and the greater ones |
| TitleKeys.Dvdcss.Insert | src/css.c:298-330 | with memory the map gains the key, without it nothing changes |
| TitleKeys.Dvdcss.FromCache | src/css.c:221-255 | the key is what the recorded text parses to, if that is fourteen characters long; otherwise there is none |
| TitleKeys.Dvdcss.Obtain | src/css.c:220-296 | the recorded calls: the cache first, the drive exactly if that gave no key, and the text of a key from the drive written back; the key and the result are those of the recorded calls |
| TitleKeys.Dvdcss.Title | src/css.c:192-334 | a known block returns its first key without any call; otherwise the key of the recorded calls is stored and current, except that a negative reply of the drive is the result, and lack of memory is -1, with list and current key as they were |
| TitleKeys.Dvdcss.Seek | src/libdvdcss.c:670-685 | which flags check the key; the seek fails exactly if that check does, and otherwise returns what the raw seek returns |
| TitleKeys.FlagsCheck | src/libdvdcss.c:672-675 | DVDCSS_SEEK_KEY always checks the key, DVDCSS_SEEK_MPEG alone exactly outside the slow method, neither flag never |
| TitleKeys.KeysAreKept | src/css.c:204-219 | over any run of checks, known keys are never forgotten and never change |
| TitleKeys.FirstKeyStays | src/css.c:204-219 | a block that has been checked once gives the same key ever after, for free |
| TitleKeys.KnownExactly | src/css.c:204-219 | the known blocks after any run are those known before and those whose check succeeded |
| Reading.BlockOfDescrambled | src/libdvdcss.c:744-750 | descrambling n blocks descrambles each on its own |
| Reading.EveryBlockIsDescrambled | src/libdvdcss.c:743-750 | with a real key bytes 2048 i to 2048 i + 2047 of the buffer are the descrambled form of the same bytes read, for each block read, and the rest is as read |
| Reading.DescrambledBlocksOnce | src/libdvdcss.c:744-750 | reading what is descrambled already changes nothing, whatever the key |
| Reading.UnchangedExactly | src/libdvdcss.c:747-748 | a block is left as it is exactly if bits 0x70 of byte 0x14 are clear |
| Reading.ScatteredIsContiguous | src/libdvdcss.c:784-830 | the scattered read leaves what the contiguous read leaves if and only if a real key is in use or no block delivered has bits to clear |
| Reading.ScatteredNeedNotBeContiguous | src/libdvdcss.c:784-830 | a concrete block on which the two reads differ with the all-zero key |
| Reading.DescrambleAt | src/libdvdcss.c:747-748 | one block of a buffer, in place |
| Reading.Dvdcss.Read | src/libdvdcss.c:710-754 | one recorded read of the device: its count is the result, the buffer holds the descrambled form of the bytes it recorded, and the warning appears exactly for an encrypted block without a key |
| Reading.ConcatUpdated | src/libdvdcss.c:822-826 | changing one buffer changes its stretch of the concatenation only |
| Reading.MoreBuffers | src/libdvdcss.c:815-820 | the walk over the buffers never leaves the array while a block is missing |
| Reading.SkipEmpty | src/libdvdcss.c:815-820 | moving on from used up buffers ends at the one with the next byte; it has less than a block left exactly if it is the first odd one and is entered at its start |
| Reading.DescrambleVectors | src/libdvdcss.c:802-827 | for buffers of any lengths: which of the concatenated blocks are descrambled, exactly when the walk runs past a buffer, and -1 exactly if it stops early at an odd one |
| Reading.WholeBuffersAreDone | src/libdvdcss.c:780-783 | if all buffers are whole blocks, every block is descrambled and no buffer is overrun |
| Reading.CheckComesLate | src/libdvdcss.c:804-808 | concrete buffers: one that is overrun, and one that is not whole blocks and goes unnoticed |
| Reading.Readv | src/libdvdcss.c:784-830 | one recorded read of the device: the concatenated buffers hold the descrambled form of the bytes it recorded, as far as the walk gets, and the result is its count, or -1 exactly if the walk stops early |
| Device.Dvdcss.Seek | src/device.c:615-638 | the position stays known or lost; no call when in position, otherwise one seek, whose failure is the result |
| Device.Dvdcss.ReadBytes | src/device.c:701-718 | under any sequence of short reads the bytes of one uninterrupted read, cut short only by a recorded read that failed |
| Device.Dvdcss.Read | src/device.c:697-740 | the whole blocks among the bytes, and the position after just these; negative exactly if the last recorded call failed, or from a lost position with less than a block; a lost position becomes a wrong one exactly if a read of at least one block delivers everything |
| TitleScan.BestIsUnique | src/css.c:1651-1666 | the longest run with the smallest period is unique |
| TitleScan.CyclesArePeriodic | src/css.c:1652-1657 | a run is truly periodic, with a period from 2 to 47, if and only if the byte that the loop skips fits as well |
| TitleScan.RunNeedNotBePeriodic | src/css.c:1655-1657 | a concrete block with a run that is not periodic |
| TitleScan.FindPattern | src/css.c:1651-1666 | the loops find the longest run over the periods 2 to 47, with the smallest period on ties |
| TitleScan.PromisingMeans | src/css.c:1671 | an attack needs more than three bytes and two cycles |
| TitleScan.GuessContinues | src/css.c:1675-1679 | within the whole cycles byte i of the guess is byte i % p of the last cycle before the scrambled part, except for the byte that the loop skips, and there too if the run is periodic; beyond them it is the scrambled bytes themselves |
| TitleScan.GuessNeedNotContinue | src/css.c:1668-1679 | a concrete block with four repeating bytes, whose guess does not go on as its pattern does |
| TitleScan.AttackPattern | src/css.c:1644-1685 | success exactly if the search on the guessed text accepts a try, with the key of the largest one |
| TitleScan.NoKeyResists | src/css.c:1671-1682 | if some key descrambles the block to the guessed bytes, the attack succeeds |
| TitleScan.YieldedKeyIsRightExactly | src/css.c:1671-1682 | a key from a successful attack descrambles the block to the guessed bytes if and only if it does so for the first one |
| TitleScan.AttackIsNotAlwaysSound | src/css.c:1671-1682 | a concrete block on which the attack succeeds and every key that it may yield fails to descramble it to the guessed bytes |
| TitleScan.WitnessYieldsKey | src/css.c:1671-1682 | and it does yield one |
| TitleScan.StartCodesAreMpeg | src/css.c:1562-1570 | the scan goes on exactly over blocks that begin with the bytes 0, 0, 1, among them every pack |
| TitleScan.StreamsAreAttackable | src/css.c:1575-1579 | exactly the scrambled blocks are attacked whose stream is none of the three without scrambling bits, among them every video, audio and private stream 1 |
| TitleScan.ScanEndsAfter2000 | src/css.c:1605-1606 | a scan that met nothing to attack in 2000 blocks read no more than those |
| TitleScan.CrackTitleKey | src/css.c:1512-1634 | the recorded calls are consecutive blocks, each read once, with at most one failed read answered by reopening; a scan shorter than asked ended at a success, a block that is no MPEG, the end, a second failed read, or 2000 blocks with nothing to attack; all blocks but a last successful one resist; which result and key come when |
| TitleScan.ScanMissesNothing | src/css.c:1575-1608 | a scan never passes an attackable block that some key descrambles to its guess, but ends there with success |
| TitleScan.ScanFindsKey | src/css.c:1562-1624 | after a success all blocks are MPEG and the last one is scrambled and yields the key |
| TitleScan.EveryCallIsKnown | src/css.c:1529-1570 | every recorded call is one of the blocks at its place, the one failed read with its reopening, or the read that ended the scan |

## Left out

- The drive calls of each operating system (`src/ioctl.c`): the drive is an object with free replies.
- Finding, opening and closing devices, the Windows, OS/2 and Darwin code: foreign calls.
- `libc_readv`, `stream_read`, `stream_readv` and `stream_seek` (`src/device.c`): the scattered raw read is a free choice, the streams are callbacks.
- Setting up the cache directory, its file names and the environment: only the text of a key and the map from blocks to texts are kept.
- `dvdcss_test`, `GetASF`, and the order of drive calls in `dvdcss_disckey` and `dvdcss_titlekey`: branching on replies without state of its own; the decoding of what the drive sends is modelled.
- `dvdcss_close`: freeing the list has no counterpart in a language with garbage collection.
- Messages and debug output, except the warning about an encrypted block without a key.
- `AttackPadding`: not compiled.
- The table of player keys (`src/css.c:1052-1085`): `DecryptDiscKey` takes any list of keys.
- Signed overflow of block numbers: block numbers, offsets and counters are unbounded integers.
- TitleKeys.ScanHex: the conversion is that of the C standard; what a particular library makes of a prefix without digits, or of values beyond 32 bits, is not modelled. The library never writes such texts.
- Reading.Readv: where the code would run past a buffer the model stops and says so; what lies behind that buffer is not modelled.
- CssTables.CssTab3IsXorOfShifts: p_css_tab3 repeats one row of eight entries 64 times, and the row is written once.
- The last 32 entries of p_crypt_tab3, which no byte index reaches.
- How long the registers run before they repeat, and how hard any of this is to break.
