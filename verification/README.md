# A verified model of the match server

The Go match server (`match-server/`) talks to game clients over an encrypted UDP protocol and runs Clash Squad
matches: lives, knock-downs and rescues, rounds and phases, coins, inventories, boxes on the ground, gloo walls, medkits.
This project models its core in Dafny and proves what that core is meant to guarantee. `dafny verify dfyconfig.toml`
checks all of it.

Each component has two layers. *Specification functions* say what a call, a tick or a whole run does to a state that is
a value; the theorems about every input, every reachable state and every run are lemmas about them. *Methods* follow the
Go code, with its loops, buffers, arrays and updated fields, and each is proved to compute its specification function.
Where Go ranges over a map, the method takes the keys in an arbitrary order (`Walks.dfy`) and is proved to come to a
result that does not depend on it, or, where the result does depend on it, to report the order. The classes of
`DeathMatch`, `PhaseClock`, `Roster`, `Sender` and `Guard` carry a ghost record of all events so far and keep their
fields equal to the run of those events, so that every theorem about runs applies to the object after every call;
`Rounds` ties the phases of a match to the lives of its players.

That a method computes its specification function says little if the function could be another one. So the functions
are pinned down by results that do not mention them: `TeaWords`, `Tokens`, `Delivery`, `Wounds`, `Income`, `Buying`,
`Arming`, `Holding`, `Waiting`, `Timetable`, `Reviving`, `Wear` and `Windows` say with numbers of their own, and over
whole runs, which ciphertext, token, copy, wound, income, slot, phase, wall and datagram it is.

| files | what they model |
|---|---|
| `Bytes`, `Results`, `Sums`, `Walks` | exclusive or on naturals, little-endian numbers, results, sums over maps, loops over maps |
| `Tea`, `TeaMessage` | the TEA cipher, its double-XOR chaining, message framing and the streaming decryption cursor |
| `Crc7`, `Remainders`, `Packets` | the table-driven checksum and what it means; framed datagrams |
| `BitFacts`, `MachineWords`, `TeaWords` | the cipher once more over 32-bit machine words: which ciphertext it is |
| `JoinToken`, `Tokens` | recovering a login token split over two packets; which tokens there are |
| `Roster` | reserving places, slots and teams, who comes and goes before a match starts |
| `Vitals`, `Lives`, `Limits` | 16-bit hit points; who is up, knocked or dead; for which room settings the invariants of that hold |
| `Rescues`, `Reviving`, `Bleeding`, `Wounds` | when the order of a rescue tick matters; how long a rescue and a knock last; what hits add up to |
| `DeathMatch` | the methods on the match's maps |
| `Economy`, `Books` | round income, scoreboard, kills to be paid and coins, as functions of a log |
| `Income`, `Buying` | what a log of rounds, kills and purchases comes to, counted without the books |
| `Phases`, `PhaseClock` | the phase machine, scores, streaks, the end of a match |
| `Waiting`, `Timetable` | a match that nobody joins; how long phases, breaks and matches last |
| `Rounds` | phases and lives together: how a fight ends and the next round begins |
| `Sender`, `Delivery` | the reliable sender: numbering, retransmission, acknowledgements; which copies go out, and when |
| `Replication` | the replication stream and its documented reader |
| `Inventory`, `Conservation`, `Playing` | items, slots and boxes; what drops and pickups conserve; whole runs, with every stack accounted for |
| `Arming`, `Holding` | what getting a weapon or anything else does to slots, stacks and hand |
| `Loadout`, `EquipDiff` | the methods on a player's items; what the other players are told |
| `Gloo`, `Wear`, `GlooWalls` | the wall list, what walls withstand, and the stack that a placement is paid from |
| `Guard`, `Windows` | the per-source rate limiter; just what it lets through |
| `Regen` | medkit and mushroom energy over time |

## What holds only under a condition

Some laws that the code is meant to satisfy fail for some inputs. The code is modelled as it is, and the exact condition
is proved in both directions:

- A decoded datagram equals the encoded packet exactly when the packet is not marked as gzip and its payload on the wire
  is shorter than 65536 bytes (`Packets.DecodeEncode`); a plaintext datagram re-encodes to itself exactly when nothing
  follows its payload (`Packets.EncodeDecode`).
- A split token is put together again exactly when the declared length does not cut its first part and its tail is at
  most 4096 bytes long (`JoinToken.SplitTokenReassembled`).
- The replication reader inverts the writer exactly when every block body is shorter than 65536 bytes
  (`Replication.ReaderInvertsWriter`).
- Of the round counts a room can ask for exactly 255 breaks the match: the rounds to win are computed in 8 bits and wrap
  to zero (`Phases.RoundCountsThatWork`, `Phases.FullByteEndsEarly`).
- Somebody alive has hit points left, and all else that `Lives.RunSafe` says, after every run of a match exactly when full
  hit points leave 200 to spare up to 2^16 (`Limits.SafeExactly`). He is within full hit points after every run exactly
  when those are at least the 20 of a revive or no team has two members (`Limits.WithinFullExactly`): a room may ask for
  1 hit point (src/tcp/roomsettings.js:54).
- A medkit's effect is independent of the tick times, for all hit points that somebody alive can have, exactly when full
  hit points are at least 20 and leave 75 to spare below 2^16 (`Regen.HealSplitsExactly`); in a room of 1 hit point it is
  not (`Regen.OneHitPoint`). A mushroom's is exactly when the 16-bit step count loses nothing that matters
  (`Regen.GainExact`, `Regen.EnergySplits`). Energy turns into hit points one for one at every tick exactly when full
  hit points leave 200 to spare (`Regen.OneForOneAlways`; for one tick, `Regen.OneForOneExactly`).
- match-server/gloo.go:81-82 says that wall ids are monotonic and never reused. They grow exactly while fewer than 2^24
  walls were placed, and so does the list stay in order (`Gloo.IDsGrow`, `Gloo.RisingExactly`); they are all different
  exactly for up to 2^24 walls (`Gloo.IDsDistinct`).
- A drop loses no item exactly when a box is near or the next box id is free (`Conservation.DropLosesNothing`,
  `Conservation.PickWeaponLoses`). That is so for 25536 new boxes after the ground was cleared (`Playing.RunTotal`,
  `Playing.PlayConserves`) and no longer: the ids have wrapped then, and a new box can take the place of one that is
  still there (`Playing.BoundIsExact`, from every loadout with a pistol: `Playing.EveryLoadoutCanCrowd`).
- Folding two stacks is exact exactly when the two counts fit 32 bits (`Conservation.PickOtherConserves`).
- A rescue tick comes out the same in whatever order the map is walked exactly when no rescue clashes: when nobody who is
  due to be revived by a teammate is reviving somebody himself (`Rescues.OrderMattersIffClash`). Such a clash can be reached
  (`Rescues.OrderCanMatter`), but not while rescue ticks come less than the four seconds of a rescue apart, as the
  100 ms of the loop let them (`Rescues.OrderNeverMatters`).
- When several knocks end at once, the books do not depend on the order exactly when first blood was drawn before, or
  all of them who were knocked by an enemy were knocked by the same one (`Books.FirstBloodSettled`).
- Later rounds never pay less exactly when the economy table never goes down after its first entry (`Economy.IncomeGrows`).

## Where code and comments differ

The model follows the code. The header of match-server/gloo.go speaks of 200 hit points, a life of about 60 s and a cap
equal to the inventory count; the constants are 750, 90 s and 3. match-server/message/replication.go:16-17 puts an outer
length before each block; `SyncPRI` writes none. match-server/cssync.go:10-11 says that only the local team scores, and
match-server/match.go:932 that first blood is not tracked; both are done.

## Model

| member | source | states |
|---|---|---|
| Tea.Wraps | match-server/crypto/tea.go:33-57 | word arithmetic is arithmetic modulo 2^32 |
| Tea.SumIs | match-server/crypto/tea.go:36-38 | after n rounds the running sum is n deltas, modulo 2^32 |
| Tea.RoundWords | match-server/crypto/tea.go:38-40 | one turn of the encryption loop is a round |
| Tea.UnroundWords | match-server/crypto/tea.go:51-53 | one turn of the decryption loop is a round undone |
| Tea.SumStep | match-server/crypto/tea.go:38 | adding delta on and taking it off again step between consecutive round constants, modulo 2^32 |
| Tea.BackwardForward | match-server/crypto/tea.go:33-57 | any number of decryption rounds undoes as many encryption rounds, for every mixing function and key |
| Tea.ForwardBackward | match-server/crypto/tea.go:33-57 | and the other way round: encryption rounds undo decryption rounds |
| Tea.BlockCipherInverts | match-server/crypto/tea.go:33-57 | each key makes the block cipher a bijection on 8-byte blocks, with decryption as two-sided inverse |
| Tea.CipherInverts | match-server/crypto/tea.go:33-57 | the same for the pair of block functions that the chaining uses |
| Tea.EncryptECB | match-server/crypto/tea.go:33-44 | the round loop with its running sum enciphers the block |
| Tea.DecryptECB | match-server/crypto/tea.go:46-57 | the backward loop from the constant start sum deciphers the block |
| Tea.InnerOfChained | match-server/crypto/tea.go:90-101 | undoing ciphertext block j gives exactly what went into the cipher for block j, by induction along both XOR chains |
| Tea.PlainBlockOfChained | match-server/crypto/tea.go:131-145 | XORing that with the previous ciphertext block gives plaintext block j back |
| Tea.DecipherEncipher | match-server/crypto/tea.go:61-180 | the chained mode is inverted byte for byte for any whole number of blocks |
| TeaMessage.SumInit | match-server/crypto/tea.go:15-20 | the start constant of decryption is sixteen deltas modulo 2^32 |
| TeaMessage.Padding | match-server/crypto/tea.go:67-71 | the padding is under 8 and makes padding, salt, data and zeros a whole number of blocks |
| TeaMessage.UnframeFrame | match-server/crypto/tea.go:66-86 | taking the data out of a framed message gives it back, whatever its length and the salt |
| TeaMessage.DecryptEncrypt | match-server/crypto/tea.go:61-180 | every plaintext of any length comes back from its ciphertext, for every 16-byte key and every salt; the ciphertext is the padded length |
| TeaMessage.TeaEncrypt | match-server/crypto/tea.go:61-103 | the buffer code produces the enciphered frame, or the length error; which ciphertext that is, `TeaWords.MessageBlockIs` says block by block |
| TeaMessage.FillFrame | match-server/crypto/tea.go:66-86 | the buffer filled in place is the frame: padding count, zeros, salt, data, seven zeros |
| TeaMessage.FrameBytes | match-server/crypto/tea.go:66-86 | where everything is in the frame: byte 0 is the count, then that many zeros, the salt, the data, and seven zeros |
| TeaWords.EncryptBlockIs | match-server/crypto/tea.go:24-44 | for every block and key: enciphering is sixteen turns of v0 += ((v1 << 4) + k0) ^ (v1 + sum) ^ ((v1 >> 5) + k1), and likewise v1 with k2 and k3, over 32-bit machine words, sum growing by 0x9E3779B9 each turn, all words and key words little-endian |
| TeaWords.DecryptBlockIs | match-server/crypto/tea.go:46-57 | deciphering a block gives the one block that these sixteen turns make it of |
| TeaWords.OneBlock | match-server/crypto/tea.go:24-31 | different blocks are different pairs of words |
| TeaWords.MessageBlockIs | match-server/crypto/tea.go:61-103 | each block of an enciphered message, in machine words: sixteen turns take the framed block, mixed with the ciphertext before it, to the ciphertext block mixed with what went in before it |
| Tea.EncipherOnly | match-server/crypto/tea.go:90-101 | the chained blocks determine the ciphertext |
| TeaMessage.EncipherBuffer | match-server/crypto/tea.go:88-102 | the block loop with its two chaining vectors produces every chained block |
| TeaMessage.Cursor.constructor | match-server/crypto/tea.go:116-129 | the cursor starts at the first deciphered block |
| TeaMessage.StandsNext | match-server/crypto/tea.go:131-144 | what advance assigns is the state of the cursor in the next block |
| TeaMessage.Cursor.Advance | match-server/crypto/tea.go:131-144 | advance moves to the next block without moving the read offset, and fails exactly at the end of the ciphertext |
| TeaMessage.Cursor.SkipSalt | match-server/crypto/tea.go:146-156 | the salt loop moves two bytes on across a block edge if need be, and never fails |
| TeaMessage.Cursor.Extract | match-server/crypto/tea.go:157-166 | the data loop yields the deciphered bytes from the cursor on, and never fails |
| TeaMessage.Cursor.CheckZeros | match-server/crypto/tea.go:167-178 | the check succeeds exactly if the last seven deciphered bytes are zero, and then the cursor is at the very end |
| TeaMessage.DecryptBlocks | match-server/crypto/tea.go:116-180 | streaming decryption equals looking at the whole deciphered message: bad input if it is too short for its padding, bad padding unless the last seven bytes are zero, else bytes 3+padding to length-7 |
| TeaMessage.TeaDecrypt | match-server/crypto/tea.go:107-180 | the same after the length checks, for every input; what a block deciphers to, `TeaWords.DecryptBlockIs` says |
| Crc7.BuildTable | match-server/crypto/crc7.go:9-27 | every entry of the table is the register after the eight bits of the byte |
| Crc7.FoldByte | match-server/crypto/crc7.go:12-23 | the bit loop takes in the bits of a byte, most significant first |
| Crc7.TurnBit | match-server/crypto/crc7.go:14-22 | one turn takes the top data bit into the register and moves the other bits up |
| Crc7.CRC7 | match-server/crypto/crc7.go:29-35 | the table-driven fold equals the bit-serial checksum, for every seed and buffer |
| Crc7.CrcConcat | match-server/crypto/crc7.go:29-35 | folding a buffer piece by piece is folding it whole |
| Crc7.CrcBitsLinear | match-server/crypto/crc7.go:14-22 | the checksum is linear over GF(2) in seed and message together |
| Crc7.RegisterIsRemainder | match-server/crypto/crc7.go:14-22 | the register is x^7 times the remainder of long division by x^7+x^3+1, all along the message |
| Crc7.TimesLinear | match-server/crypto/crc7.go:3-5 | multiplication of polynomials distributes over their addition |
| Crc7.SeedAdds | match-server/crypto/crc7.go:29-35 | a seed adds to the checksum what it leaves of a message of zeros |
| Crc7.CrcIsRemainder | match-server/crypto/crc7.go:3-35 | for every seed and message of n bits the checksum is the remainder of the message times x^7 plus the seed times x^n on division by x^7+x^3+1: dividend = quotient times divisor plus checksum, with the quotient |
| Remainders.PolyIsNumber | match-server/crypto/crc7.go:3-5 | the polynomial of a message is the number that its bytes make up, the first the highest |
| Remainders.CrcIsTheRemainder | match-server/crypto/crc7.go:3-35 | for every seed and message the checksum is the one number below 128 that dividing that number, seven bits up, and the seed, as many bits up as the message has, by x^7+x^3+1 = 0x89 leaves |
| Crc7.BurstHasNonzeroCrc | match-server/crypto/crc7.go:29-35 | an error burst of at most seven bits never has checksum zero, wherever it is |
| Crc7.BurstChangesCrc | match-server/crypto/crc7.go:29-35 | two messages that differ by such a burst have different checksums |
| Packets.EncodePacket | match-server/packet/packet.go:184-210 | the appending code serialises header, checksum and (enciphered) payload as specified, or reports the cipher error |
| Packets.DecodeDatagram | match-server/packet/packet.go:135-182 | the offset code accepts, rejects and parses exactly as specified, error by error |
| Packets.Fields | match-server/packet/packet.go:195-209 | every field is at the offset at which decoding looks for it, the length cut to 16 bits |
| Packets.Layout | match-server/packet/packet.go:118-126 | the datagram byte by byte: 0x6C, checksum, send option, little-endian command, both ids exactly if it is reliable and no acknowledgement, flags, length cut to 16 bits, payload, enciphered exactly if the lowest flag is set |
| Packets.DecodeFields | match-server/packet/packet.go:135-210 | what decoding makes of any encoded packet, in every case |
| Packets.DecodeEncode | match-server/packet/packet.go:135-210 | decoding inverts encoding exactly when the packet is not marked as gzip and its wire payload is under 65536 bytes; ids count as zero if not reliable |
| Packets.CutShort | match-server/packet/packet.go:203 | a longer payload never comes back |
| Packets.WireLength | match-server/packet/packet.go:186-194 | how long the payload is on the wire, so that the bound can be checked beforehand |
| Packets.FirstError | match-server/packet/packet.go:137-144 | which of length, message key and checksum is reported, exactly when |
| Packets.EncodeDecode | match-server/packet/packet.go:135-210 | an accepted plaintext datagram re-encodes to itself exactly when nothing follows its payload |
| Packets.BurstRejected | match-server/packet/packet.go:142-144 | a datagram whose body was hit by a burst of at most seven bits is rejected |
| Packets.BitFlipRejected | match-server/packet/packet.go:139-144 | a datagram with any single bit flipped is rejected, with the message-key error for byte 0 and the checksum error otherwise |
| JoinToken.ExtractJWT | match-server/message/joinreq.go:85-95 | the scan returns the run of token characters (`Tokens.TokenChars`) from the first header marker on, or nothing |
| JoinToken.LastJWTField | match-server/message/joinreq.go:117-139 | the nested scan returns the last length-prefixed field of token characters (`Tokens.TokenChars`) |
| JoinToken.ScanFindsLatest | match-server/message/joinreq.go:117-139 | that field ends latest of all such fields in the payload, and starts first among those |
| JoinToken.EarlierFieldsEndEarlier | match-server/message/joinreq.go:112-134 | no field that begins before the tail's length prefix reaches the end: it would run over a zero byte of that prefix |
| JoinToken.LastFieldIsTail | match-server/message/joinreq.go:112-139 | whatever precedes it, a length-prefixed tail is what the scan finds exactly when it is at most 4096 bytes |
| JoinToken.BeginningIncomplete | match-server/message/joinreq.go:101-110 | a proper beginning of a token is never taken for a whole one |
| JoinToken.ExtractBeginning | match-server/handlers.go:142-146 | extracting from a beginning of a token, however short, gives that beginning |
| JoinToken.PreparedFromStart | match-server/handlers.go:141-159 | with a beginning buffered the answer is that and the last field of cmd 440 |
| JoinToken.SplitTokenReassembled | match-server/handlers.go:119-170 | every HS256 token split in two non-empty parts over cmd 439 and cmd 440 is returned, for every prefix of the second, exactly when the tail is at most 4096 bytes and the declared length does not cut the first part |
| JoinToken.WholeTokenIn439 | match-server/handlers.go:124-159 | a token that arrives whole in cmd 439 is returned whatever cmd 440 holds, exactly unless its declared length cuts it and cmd 440 does not supply just what was cut off |
| JoinToken.WholeTokenIn440 | match-server/handlers.go:160-163 | a token that arrives whole in cmd 440, followed by no further token character, is found there if no header occurs before it |
| Tokens.TokenChars | match-server/message/joinreq.go:75-79 | a token character is the full stop or one of the 64 that base64url gives the values 0 to 63, and nothing else |
| Tokens.HeaderIsMarker | match-server/message/joinreq.go:71-73 | the text {"alg":"HS256","typ":"JWT"} in base64url is the marker that the scan looks for |
| Tokens.SegmentsAreToken | match-server/message/joinreq.go:97-110 | three segments of such characters of which the first begins with that header make a token exactly if the last has 43 |
| Tokens.SegmentsIn439 | match-server/handlers.go:141-159 | whole in cmd 439 they are the answer exactly if the last has 43 or more; otherwise the last field of cmd 440 goes behind them |
| Tokens.SignedIsToken | match-server/message/joinreq.go:97-110 | every token that signing any payload with any 32-byte code gives is one that the results on putting tokens together are about |
| Tokens.SignedReassembled | match-server/handlers.go:119-170 | every signed token, split anywhere over cmd 439 and cmd 440, comes back exactly when the declared length does not cut its first part and the rest is at most 4096 bytes |
| Tokens.SignedFound | match-server/handlers.go:124-163 | every signed token is found whole in cmd 439, or whole in cmd 440, behind anything without a header, if no token character follows |
| Tokens.LastChunk | match-server/handlers.go:124-135 | after any payloads of cmd 439 the buffer is the chunk of the last that is long enough for a length, cut to that length |
| Tokens.FixedLayout | match-server/handlers.go:164-169 | a token of any bytes at the fixed place in cmd 440 is returned if the payload has no header anywhere |
| JoinToken.Session.HandleJoinMatchPrepare | match-server/handlers.go:124-135 | the buffer becomes the chunk, cut to the declared length, or stays as it was for a short payload |
| JoinToken.Session.PrepareToken | match-server/handlers.go:141-170 | which of buffer, scan and struct field the answer comes from, in every case; for signed tokens, `Tokens.SignedReassembled` and `Tokens.SignedFound` say what it is |
| Roster.Slots.constructor | match-server/match.go:338-356 | a fresh match has its first player in slot 1 and slot 2 set aside for the bot |
| Roster.Slots.CountHumans | match-server/match.go:165-168 | the loop counts the humans of a team |
| Roster.Slots.AllocSlot | match-server/match.go:162-182 | the next slot, the preferred team or the one with fewer humans, an entity id with the team in its high byte, and the replication id, faction and index that go with it |
| Roster.Slots.AddPlayer | match-server/match.go:207-213 | the player is appended with the next slot |
| Roster.Slots.Join | match-server/manager.go:34-52 | a place is claimed exactly if the match is open and fewer than eight have been claimed |
| Roster.Slots.AdmitLater | match-server/match.go:363-373 | whoever claimed a place gets in, and the bot goes |
| Roster.Slots.SpawnFallbackBot | match-server/match.go:818-827 | the bot takes the id that was set aside |
| Roster.Slots.Keep | match-server/match.go:229-235 | in-place compaction keeps everybody but the leaver, in order |
| Roster.Slots.RemovePlayer | match-server/match.go:219-247 | the leaver is off the roster; neither his slot nor his claim comes back |
| Roster.LobbySeated | match-server/match.go:162-213 | after every sequence of claims, admissions, departures and bot fills each human has a slot of his own, none of them the bot's, and no slot is beyond the number of places claimed plus one |
| Roster.AdmittedTo | match-server/match.go:162-213 | who is admitted gets the team he asks for, or that with fewer humans, and the entity id, replication id, faction and number among the teammates that go with the next slot; the bot goes |
| Roster.LobbyValid | match-server/matchhandle.go:36-41 | so every such sequence leads to a roster with distinct ids that carry their teams, the bot's id among none of the humans: the slot byte never wraps |
| Roster.AtMostEight | match-server/matchhandle.go:36-41 | and to at most eight humans |
| Roster.PlacesTaken | match-server/manager.go:34-52 | everybody who claims a place while the match is open gets one until eight are taken, nobody else does, and none comes back |
| Lives.AnyLobbyWillDo | match-server/match.go:338-373 | with full hit points from 1 up to 200 short of 2^16 it is a match to which all results about lives apply |
| Roster.BalancedJoin | match-server/match.go:169-176 | with no preference a join keeps the teams within one human of each other |
| Roster.LobbyBalanced | match-server/match.go:169-176 | so while nobody states one or leaves, the teams never differ by more than one human |
| Roster.PairsAreReady | match-server/match.go:755-769 | and the match is ready exactly when an even number has joined |
| Roster.NobodyUp | match-server/knockdown.go:77-88 | the count of a team's living is zero exactly when no member is up |
| Roster.TwoMembers | match-server/knockdown.go:63-74 | a team with two different members has size at least two |
| Lives.FreshConsistent | match-server/combat.go:17-34 | a fresh match satisfies the invariant |
| Lives.DownOrKillKeeps | match-server/deathmatch.go:148-223 | a lethal hit keeps it: a lone member dies at once, and a knock that leaves nobody up turns every knock of the team into a death |
| Lives.DamageKeeps | match-server/deathmatch.go:54-143 | so does any hit on anybody in any state |
| Lives.BleedKeeps | match-server/deathmatch.go:317-330 | so does the bleed tick |
| Lives.RescueAllKeeps | match-server/deathmatch.go:439-460 | so does the rescue tick, in any order of the map |
| Lives.StepKeeps | match-server/deathmatch.go:54-460 | so does every step of the match |
| Lives.RunSafe | match-server/deathmatch.go:54-460 | in every reachable state: a knock record exactly for the knocked, 0 < hp <= the larger of full and 20 for the living, hp equal to the bleed pool in 1..200 for the knocked, hp 0 for the dead, rescues only of the knocked, and for everybody knocked a living teammate |
| Lives.WipedTeamIsDead | match-server/deathmatch.go:216-223 | a team's living count is zero exactly when every member is dead: nobody is left knocked |
| Lives.LoneMemberNeverDown | match-server/deathmatch.go:150-153 | a team of one is never knocked |
| Limits.OverfilledAtZero | match-server/ep.go:54-65 | in a room with full hit points beyond 2^16 less 200, a scratch and one tick of energy leave somebody alive with hp 0 |
| Limits.SafeExactly | match-server/matchsettings.go:135-137 | for every roster and every 16-bit setting of full hit points: the invariant holds after every run exactly when 200 more fit up to 2^16 |
| Limits.RevivedAbove | match-server/deathmatch.go:454-457 | in a room of fewer than 20 hit points a hit, a rescue and its completion leave somebody alive above full |
| Limits.AloneWithin | match-server/deathmatch.go:148-153 | with no two on a team nobody is ever revived, so nobody is ever above full |
| Limits.WithinFullExactly | match-server/matchsettings.go:135-137 | everybody alive is within full hit points after every run exactly when those are at least 20 or no team has two members |
| Bleeding.StepLeaves | match-server/deathmatch.go:54-460 | any event but a bleed tick or a hit on him leaves the knock of somebody down as it is, or ends it |
| Bleeding.NeverEarlier | match-server/deathmatch.go:317-330 | whatever else happens to anybody and however the ticks come, a knock neither hit nor rescued does not end in a bleed before 30 s |
| Bleeding.DeadAfterThirtySeconds | match-server/deathmatch.go:317-330 | with bleed ticks at most 1.5 s apart and any other events in between, such a knock ends in death at exactly the first tick 30 s after it |
| Wounds.HitsAdd | match-server/deathmatch.go:69-74 | two hits on somebody standing do what one of their sum does, whoever deals them and when, while that is less than he has |
| Wounds.HitsSumUp | match-server/deathmatch.go:54-117 | after any hits on somebody standing he has his hit points less their sum while that is positive, with nothing else changed, and is down or dead from the hit on that leaves nothing |
| Wounds.Felled | match-server/deathmatch.go:148-175 | whoever is felled is down, with a full pool and his attacker on record, exactly if a teammate is up; else he is dead |
| Wounds.DrainsSumUp | match-server/deathmatch.go:124-143 | the same for the pool of somebody down: the hits come off it, and hit points with it, and the one that empties it ends the knock |
| Wounds.NoHarm | match-server/deathmatch.go:54-68 | no hits change anything after the round is decided, or for anybody dead or unknown |
| Reviving.FourSeconds | match-server/deathmatch.go:412-460 | whatever else happens: while one stays down and the reviver up and does not stop, a rescue tick has him up with 20 hit points from four seconds on, and changes nothing about the rescue before |
| Reviving.Begins | match-server/deathmatch.go:412-427 | a rescue begins with somebody up on the team of somebody down whom nobody is reviving yet |
| Reviving.OnlyMatesRescue | match-server/deathmatch.go:412-460 | in every reachable state every rescue is by somebody else of the same team |
| Rescues.RescueMore | match-server/deathmatch.go:439-460 | without a clash every turn of the rescue loop decides as the state before the tick would |
| Rescues.ClashDiffers | match-server/deathmatch.go:439-460 | with a clash the two orders of the rescuer and the rescued leave different lives |
| Rescues.OrderMattersIffClash | match-server/deathmatch.go:439-460 | in every consistent state the rescue tick comes out the same in any order of the map exactly when there is no clash |
| Rescues.TrioClash | match-server/deathmatch.go:148-435 | three on a team, two knocks and two rescues lead to a clash four seconds later |
| Rescues.OrderCanMatter | match-server/deathmatch.go:148-460 | so there is a run of a match after which the order of the tick matters |
| Rescues.OrderNeverMatters | match-server/match.go:460-473 | after no run whose rescue ticks come less than four seconds apart, as those of the 100 ms loop do, does it matter |
| DeathMatch.FallAnyOrder | match-server/deathmatch.go:216-221 | the loop over a fallen team ends all its knocks, in any order of the map |
| DeathMatch.BleedAnyOrder | match-server/deathmatch.go:317-330 | the bleed loop comes to the same in any order of the map |
| DeathMatch.Match.constructor | match-server/combat.go:17-34 | everybody is alive at full hit points, nobody has a score, wallets are as giveLoadout seeds them |
| DeathMatch.Match.CreditDeath | match-server/deathmatch.go:201-212 | the books are those with one more death, and a kill only for an enemy (`Income.ScoreIsOfEnemies`) |
| DeathMatch.Match.FinalizeKnock | match-server/deathmatch.go:183-197 | a knock becomes one death, credited to whoever made the knock; knock and rescue are gone |
| DeathMatch.Match.TeamFellToZero | match-server/deathmatch.go:216-223 | every member still down dies, each credited to whoever knocked him; the log has them in the order of the map, which is reported, and the books are those after these deaths |
| DeathMatch.Match.KillEntity | match-server/deathmatch.go:228-241 | the victim is dead with hp 0, one death logged for the attacker |
| DeathMatch.Match.KnockPlayer | match-server/deathmatch.go:163-175 | the victim is knocked with a full bleed pool, mirrored in hp |
| DeathMatch.Match.CountTeam | match-server/knockdown.go:63-74 | the loop counts the team, the bot included |
| DeathMatch.Match.CountAlive | match-server/knockdown.go:77-88 | the loop counts the team's living, the bot included |
| DeathMatch.Match.DownOrKill | match-server/deathmatch.go:148-158 | a lethal hit makes the specified transition, and logs just the deaths it causes, in order, with their killers |
| DeathMatch.Match.DamageKnocked | match-server/deathmatch.go:124-143 | a hit on somebody down drains the pool or ends the knock; the death goes to the original knocker |
| DeathMatch.Match.ApplyDamage | match-server/deathmatch.go:54-117 | a hit makes the specified transition, no one dies twice between revives, and the books agree with the log; how much a hit takes off, `Wounds.HitsSumUp` and `Wounds.DrainsSumUp` say |
| DeathMatch.Match.StepKnock | match-server/deathmatch.go:317-330 | the bleed tick makes the specified transition whatever the order of the map; its deaths, logged in that order, go to the knockers |
| DeathMatch.Match.StartRescue | match-server/deathmatch.go:412-427 | a rescue begins only for somebody knocked by a living teammate, and does not restart one |
| DeathMatch.Match.StopRescue | match-server/deathmatch.go:430-435 | only the reviver stops a rescue |
| DeathMatch.Match.RescueTurn | match-server/deathmatch.go:440-460 | one turn completes, drops or leaves a rescue |
| DeathMatch.Match.StepRescue | match-server/deathmatch.go:439-451 | the tick is the specified one in some order that visits every rescue once |
| DeathMatch.Match.ReviveAll | match-server/deathmatch.go:334-347 | everybody on the roster is alive at full hit points, no knock or rescue is left, damage counts again |
| DeathMatch.Match.PayHumans | match-server/match.go:935-947 | each human is paid once, in the loop's order, and his kills are reset; what that comes to, `Income.CoinsAreIncome` says |
| DeathMatch.Match.AwardRound | match-server/match.go:933-948 | the books are those after a round award, and first blood is open again; what that comes to, `Income.CoinsAreIncome` says |
| DeathMatch.Match.Purchase | match-server/purchase.go:193-210 | a purchase is charged exactly if it is within the balance (or money is unlimited) and not at its limit |
| DeathMatch.Match.Treat | match-server/medkit.go:123-138 | a medkit's steps go only to somebody alive, added in 16 bits and cut at full hit points |
| DeathMatch.Match.Feed | match-server/ep.go:35-67 | energy goes only to somebody alive with hit points below full, in 16 bits |
| DeathMatch.Match.DecideRound | match-server/match.go:917 | nothing but the flag changes |
| DeathMatch.Match.Apply | match-server/deathmatch.go:54-460 | after any event the maps are the run of all events so far and the books those of the log, so every result about runs applies |
| Economy.DefaultIncome | match-server/economy.go:15-53 | a room without a table of its own starts at 500 and pays 900, 1100, 1700, 2100, 2400, and 3000 from round 6 on |
| Economy.IncomeGrows | match-server/economy.go:40-53 | later rounds never pay less exactly when the table never goes down after its first entry |
| Books.ScoreboardCounts | match-server/deathmatch.go:201-206 | deaths and kills are the counts in the log, as 16-bit counters; only cross-team deaths are kills |
| Books.WaitingKills | match-server/match.go:936 | kills paid and kills waiting add up to the kills in the log, modulo 2^32 |
| Books.KillsPaidOnce | match-server/match.go:933-948 | every kill of a human is paid in exactly one round award or still waiting |
| Books.AwardSettles | match-server/match.go:936 | after a round award no kill is waiting |
| Books.BalanceIsExact | match-server/purchase.go:193-210 | a balance is starting coins plus awards less accepted purchases, and purchases never exceed what came in |
| Books.SheetAnyOrder | match-server/deathmatch.go:201-212 | deaths, kills and unpaid kills come to the same in whatever order several victims die |
| Books.FirstBloodIs | match-server/deathmatch.go:205-207 | first blood, if not drawn before, is drawn by the killer of the first of them killed by an enemy |
| Books.FirstBloodSettled | match-server/deathmatch.go:201-221 | the books come to the same in every order exactly when first blood was drawn before or all their enemy killers are one |
| Income.KillsAreOfEnemies | match-server/deathmatch.go:201-206 | the kills that the books count are the deaths dealt to members of the other team, going by the teams on the roster |
| Income.ScoreIsOfEnemies | match-server/deathmatch.go:201-206 | so the scoreboard has these and no others, as a 16-bit number |
| Income.EarnedIsIncome | match-server/match.go:933-948 | what a human has earned is, modulo 2^32, the base income of each round paid, perKill for each kill up to the last award, winRound for each round his team won, lossRound for each it lost, lossStreak2 or lossStreak3 more if that was the second or at least the third in a row, and firstBlood for each round in which he drew it |
| Income.CoinsAreIncome | match-server/match.go:933-948 | so his coins and what he spent are his starting money and that |
| Buying.PriceExact | match-server/purchase.go:184-195 | the price is that of so many, or of one for a quantity of zero, exactly if that fits 32 bits |
| Buying.CoinsArePurse | match-server/purchase.go:202-213 | over any series of purchases the coins are a purse from which each price is taken if there is as much, and nothing else changes |
| Buying.AllBought | match-server/purchase.go:202-213 | all of it is bought, leaving the rest, exactly if the sum of the prices is within the balance |
| Phases.RoundCountsThatWork | match-server/matchsettings.go:128-131 | of the round counts 1..255 exactly 255 leaves a match that cannot be decided |
| Phases.EndFightKeeps | match-server/match.go:914-971 | a finished round keeps scores, streaks, verdict and flags in order |
| Phases.AdvanceKeeps | match-server/match.go:831-909 | so does every tick |
| Phases.RunSound | match-server/match.go:831-971 | in every reachable state the scores count the rounds won, each streak is the run of losses just now, the round number is that of the round played or about to be, and the flags fit the phase |
| Phases.MatchHasAWinner | match-server/match.go:951-955 | a match is finished exactly when the last round's winner has just the wins needed and the other side fewer; it takes at most 2*roundsToWin-1 <= maxRound rounds |
| Phases.DoneClosedOnce | match-server/match.go:856-862 | done is closed at most once and only at the end; ended holds exactly in the last phase of a finished or cancelled match |
| Phases.CancelledNeverStarted | match-server/match.go:808-812 | a cancelled match was never started and stands at 0-0 |
| Phases.MovesGoDown | match-server/match.go:831-909 | exactly the ticks that change the phase or start the match lower a measure of what is still to come |
| Phases.BoundedMoves | match-server/match.go:831-909 | so a match changes phase at most fourteen times per win needed, however long it runs |
| Phases.FullByteEndsEarly | match-server/matchsettings.go:128-131 | a reachable match over 255 rounds ends after one, without a proper winner |
| Waiting.NobodyJoins | match-server/match.go:721-745 | with ticks at most g apart, a match that nobody joins is, when the wait is over (34.15 s and four g), cancelled exactly if the server has no bot, and otherwise started with one |
| Waiting.SomebodyJoins | match-server/match.go:839-842 | as soon as somebody does it starts, with no bot but one that was there before |
| Waiting.OthersNeverWait | match-server/match.go:721-745 | a custom room, and a match that is held, never waits and is never cancelled |
| Waiting.BotsOnlyIfAny | match-server/match.go:721-745 | in every reachable state there is a bot only if there was one from the start or the server has bots, and one that was there stays |
| Waiting.CustomStarts | match-server/match.go:729-738 | a custom room that is not full when its setup ends starts at once, with a bot exactly where the server has one |
| Timetable.PhaseLasts | match-server/match.go:695-909 | in every reachable state a phase other than a fight is left at a tick exactly if its own length, given in milliseconds phase by phase, has passed since it began, or if it is the wait for players and they are there; after the last the match is closed |
| Timetable.NoMoreRounds | match-server/match.go:951-955 | whatever the settings, even those that let nobody win: a match has one round, or no more than its settings say |
| Timetable.NextFight | match-server/match.go:831-1005 | after a round that does not decide the match the next fight begins no earlier than 9.15 s and the buy phase, and no later than 0.15 s and five ticks' distances after that |
| Timetable.MatchCloses | match-server/match.go:856-862 | the match is closed, once, 20.5 s after the fight that decided it, or a tick's distance later |
| PhaseClock.Clock.constructor | match-server/match.go:151-155 | a match begins in its first phase with score 0-0 |
| PhaseClock.Clock.Enter | match-server/match.go:695-702 | phase and deadline are set, no deadline for a duration that is not positive |
| PhaseClock.Clock.StartBuyPhase | match-server/match.go:797-804 | the match is started and in its buy phase |
| PhaseClock.Clock.EnterPrepare | match-server/match.go:721-745 | hold, wait, bot or buy phase, in every case |
| PhaseClock.Clock.EnterCancel | match-server/match.go:808-812 | the match is ended and cancelled |
| PhaseClock.Clock.Score | match-server/match.go:918-929 | the winner scores and its streak ends, the loser's grows, in 8 bits |
| PhaseClock.Clock.EndFight | match-server/match.go:914-971 | the round is scored and the match goes on or ends, as specified |
| PhaseClock.Clock.CloseDone | match-server/match.go:858-861 | done is closed only once |
| PhaseClock.Clock.AdvancePhase | match-server/match.go:831-909 | one tick makes the specified transition |
| PhaseClock.Clock.OnTick | match-server/match.go:831-909 | the fields are the run of all ticks so far, so every result about runs applies |
| Rounds.RunsInside | match-server/match.go:455-475 | a run of phases and players together is a run of each, so every result about either applies to both |
| Rounds.FightEndsWithATeam | match-server/match.go:832-838 | in every reachable fight a tick ends it exactly when a team is dead to the last member; the other team wins the round, the enemy team if both are, and damage stops; no other tick changes anything |
| Rounds.DeadStayDead | match-server/deathmatch.go:54-57 | while the round is over nothing but the next round brings a dead player back |
| Rounds.RunDecided | match-server/match.go:914-971 | in every reachable state damage is off exactly from the end of a fight until everybody is revived, and all that time the side that lost the round is dead to the last member |
| Rounds.NextRoundRevives | match-server/match.go:976-1005 | the next round finds everybody alive at full hit points with damage on; there is a rebind first exactly when some human was not up, so whenever the losers have a human |
| Rounds.PostedPays | match-server/match.go:914-948 | what a tick posts is just the award of a round that it ends |
| Rounds.PaidAsPlayed | match-server/match.go:914-948 | a log with those awards has paid every round with the losing streak of the phases, and its wins and streaks are theirs |
| Rounds.CoinsOfMatch | match-server/match.go:914-948 | so in every match a human's coins and what he spent are his starting money and his income from the rounds played |
| Rounds.Game.constructor | match-server/match.go:428-441 | a match as the loop starts it: no round played, nothing on the log |
| Rounds.Game.DeadHumans | match-server/deathmatch.go:379-387 | the loop finds a human who is not alive exactly if there is one |
| Rounds.Game.See | match-server/match.go:832-838 | what a tick looks at: the living of the two teams, counted by the loops |
| Rounds.Game.Award | match-server/match.go:914-948 | at the end of a fight damage stops and the round is paid for, once |
| Rounds.Game.Feel | match-server/match.go:914-981 | a fight that ends is paid to its winner with the loser's streak, a new round revives everybody, any other change of phase does nothing to the players |
| Rounds.Game.Tick | match-server/match.go:455-470 | a tick makes the specified transition of phases and players, both stay runs of their machines, and the log has just the award or the revival that goes with it |
| Rounds.Game.Happen | match-server/match.go:450-475 | so does anything else that happens to the players |
| Rounds.Game.Purchase | match-server/purchase.go:202-213 | a purchase is charged exactly if it is within the balance, and leaves phases and lives alone |
| Sender.EmitKeeps | match-server/writer.go:97-126 | sending keeps the record sound: what is buffered is what was sent, and when |
| Sender.ResendOneKeeps | match-server/writer.go:135-149 | so does one turn of the retransmit loop |
| Sender.RunSound | match-server/writer.go:77-150 | in every run each reliable packet goes out one to nine times, as the same bytes, at least one RTO apart |
| Sender.WireSpacing | match-server/writer.go:134-149 | on the wire two copies are an RTO apart, less what the delivery of the earlier tick was late |
| Sender.RunDelivers | match-server/writer.go:106-126 | while every packet can be framed, the ordered packets on the wire are just those that were given ids, in order |
| Sender.FrozenForever | match-server/writer.go:77-150 | what is no longer buffered is never sent again |
| Sender.NoneAfterAck | match-server/writer.go:87-88 | once its acknowledgement is processed a packet is never sent again |
| Sender.RunNumbered | match-server/writer.go:106-113 | sequence ids number hello and ordered packets consecutively, order ids the ordered ones, modulo 2^16 |
| Sender.TickLowers | match-server/writer.go:134-150 | a tick lowers the sum of what the buffered packets still have to come, strictly exactly when one of them is due |
| Sender.TickNear | match-server/writer.go:134-150 | a tick at most g after the last leaves every deadline ahead of it and within an RTO and g for each resend |
| Sender.Drains | match-server/writer.go:134-150 | with no new sends and ticks at most g apart, for any g, the buffer is empty eight RTO and g after the last deadline |
| Sender.DrainsAfterAnyRun | match-server/writer.go:77-150 | so it is after every run, nine RTO and eight g after its end |
| Sender.EveryCopyDecodes | match-server/writer.go:114-121 | every copy of a packet that fits decodes to that packet |
| Delivery.NoneForgotten | match-server/writer.go:97-160 | in every reachable state each ordered packet that was sent is still buffered, or has gone out nine times, or was acknowledged since, or a later one has taken its id |
| Delivery.RunSchedules | match-server/writer.go:134-150 | so long as nobody acknowledges it, a buffered packet goes out at just the times of the schedule: at the first tick 250 ms or more after each copy, until there are nine |
| Delivery.SentAgain | match-server/writer.go:97-150 | so does every packet given to emit, from any reachable state on, as the same bytes |
| Delivery.AllNine | match-server/writer.go:134-150 | with ticks at most g apart all nine copies are out eight times 250 ms and g after the first |
| Sender.Writer.constructor | match-server/writer.go:61-69 | a new sender has sent nothing |
| Sender.Writer.Emit | match-server/writer.go:97-130 | stamping, framing and buffering as specified; the counters move even if framing fails. What becomes of the packet, `Delivery.SentAgain` and `Delivery.NoneForgotten` say |
| Sender.Writer.EmitQueued | match-server/writer.go:97-126 | what is encoded already goes out as it is and leaves counters and buffer alone |
| Sender.Writer.OnAck | match-server/writer.go:87-88 | the packet leaves the buffer |
| Sender.Writer.ResendTurn | match-server/writer.go:135-149 | one packet is left, resent or given up |
| Sender.Writer.Retransmit | match-server/writer.go:134-150 | the loop makes the specified transition in some order that visits every packet once |
| Sender.Writer.RunTurn | match-server/writer.go:77-93 | the state is the run of all events so far, so every result about runs applies |
| Replication.CutIsModulo | match-server/message/replication.go:53-65 | a value is read back modulo the range of its type |
| Replication.Keeps | match-server/message/replication.go:20-47 | which range that is: 8, 16, 32 or 64 bits, by the kind |
| Replication.StreamLayout | match-server/message/replication.go:225-232 | the stream byte by byte: replication id, length of the tuples cut to 16 bits, both little-endian, tuples, other entities |
| Replication.TupleLayout | match-server/message/replication.go:50-70 | a tuple byte by byte: kind, field, and as many bytes of the value as the kind has |
| Replication.ReadAll | match-server/message/replication.go:8-12 | the documented reader reads back all tuples of a block and stops right behind it |
| Replication.ReadTooFew | match-server/message/replication.go:67 | with a length that has wrapped the reader loses entries |
| Replication.ReaderInvertsWriter | match-server/message/replication.go:8-70 | for all entities with known type codes the reader gives back the same entities, values cut to width, exactly when every block body is under 65536 bytes |
| Replication.Buffer.Put | match-server/message/message.go:16-32 | a fixed-width number is appended least significant byte first |
| Replication.ReplicationBlock | match-server/message/replication.go:50-70 | the appending loop writes the block |
| Replication.SyncPRI | match-server/message/replication.go:225-232 | the appending loop writes the stream |
| Inventory.DropKeeps | match-server/loot.go:474-497 | a drop keeps the inventory invariant: weapons match their slots, no item in two slots, uniques distinct, one stack per consumable, no empty box |
| Inventory.PickWeaponKeeps | match-server/loot.go:385-462 | so does picking up a weapon, with the one it displaces put down, even into the same box |
| Inventory.PickOtherKeeps | match-server/loot.go:423-462 | so does picking up anything else, folded with its like |
| Inventory.BuyWeaponKeeps | match-server/purchase.go:286-341 | so does buying a weapon over another |
| Inventory.BuyOtherKeeps | match-server/purchase.go:320-341 | so does buying anything else, repeatedly |
| Inventory.GiveLoadoutKeeps | match-server/cssync.go:100-168 | a fresh loadout satisfies the invariant whatever was held before |
| Inventory.ReissueKeeps | match-server/cssync.go:249-262 | a refill keeps it |
| Arming.PickupAdds | match-server/loot.go:385-422 | picking up a primary with a primary slot free adds it there and in hand, every other weapon stays, and nothing is put down |
| Arming.PickupReplaces | match-server/loot.go:385-422 | with both taken just the one in hand, or else the first, goes; with room on the ground it lies there with a full clip |
| Arming.PistolPickup | match-server/loot.go:385-422 | any other weapon goes into slot 2, for what was there, which with room on the ground lies there with a full clip |
| Arming.PurchaseAdds | match-server/purchase.go:112-130 | buying a primary with a slot free adds it, and puts nothing down |
| Arming.PurchaseReplaces | match-server/purchase.go:112-130 | with both taken just the one in hand, or else the first, goes, and lies on the ground with a full clip |
| Arming.PurchaseGives | match-server/purchase.go:286-319 | a weapon purchase tracks just the weapon with a full clip, the reserve of its ammunition and its attachments, numbered in this order, and lets go of just the weapon it overrides |
| Arming.FreeOrGivenUp | match-server/purchase.go:117-130 | either a primary slot is free or there is one to be given up, never both |
| Holding.Stacked | match-server/purchase.go:320-341 | a repeat buy makes the stack that is there so much larger; armour, and anything new, is a stack by itself, armour with its durability |
| Holding.PurchaseWorn | match-server/purchase.go:320-341 | what has a slot is in it afterwards, and no other slot, weapon or box changes, nor the hand |
| Holding.HeldAsItLay | match-server/loot.go:423-448 | anything picked up that there is no stack of is held as it lay there; slots, weapons, hand and other boxes stay |
| Holding.TakesOver | match-server/loot.go:423-448 | a stack that is picked up has what both held, the other's slot and its place in the hand; every other item stays |
| Holding.TwoMedkits | match-server/cssync.go:249-262 | after a refill there is one stack of medkits, of two |
| Holding.LoadoutHolds | match-server/cssync.go:100-168 | just which slots a fresh loadout fills, with what, what is in hand, and that nothing is on the ground |
| Conservation.DropConserves | match-server/loot.go:474-497 | a drop with room changes the total of nothing |
| Conservation.DropLosesNothing | match-server/loot.go:138-149 | a drop loses no item exactly when a box is near or the next id is free |
| Conservation.PickWeaponConserves | match-server/loot.go:385-422 | a weapon pickup with room changes the total of nothing but attachments |
| Conservation.PickWeaponLoses | match-server/loot.go:418-422 | without room it loses an item |
| Conservation.PickOtherConserves | match-server/loot.go:423-448 | any other pickup keeps every total, less what the 32-bit sum of two counts drops |
| Playing.ActKeeps | match-server/loot.go:369-497 | every drop, pickup, purchase, refill, gloo wall, use of a consumable and fresh loadout keeps the inventory invariant |
| Playing.RunKeeps | match-server/loot.go:369-497 | so does every run of them, until the uniques run out |
| Playing.AlwaysSound | match-server/cssync.go:100-168 | in every state reached from a fresh loadout, whatever was held before, the invariant holds |
| Playing.RecentRoom | match-server/loot.go:129-149 | with fewer than 25536 boxes since the ground was cleared the next box id is free |
| Playing.ActRecent | match-server/loot.go:129-149 | an act that makes a box makes every other one id older, and a fresh loadout clears the ground |
| Playing.BuyWeaponTotal | match-server/purchase.go:286-319 | a bought weapon adds itself and its ammunition to what there is, and the one it overrides is not lost |
| Playing.ActTotal | match-server/loot.go:369-497 | an act with room adds what it issues and takes what it uses up, of everything but attachments |
| Playing.RunTotal | match-server/loot.go:369-497 | over every run with at most 25536 new boxes between two clearings, all there is of a data that is no attachment is what there was and was issued less what was used up |
| Playing.PlayConserves | match-server/loot.go:369-497 | drops and pickups from a fresh loadout on that make at most 25536 boxes, as any 25536 of them do, conserve every total but attachments, less what a folded 32-bit count drops |
| Playing.TurnsAre | match-server/loot.go:129-149 | an item dropped and picked up again only uses up a box id, as often as it takes until the id of another box is next |
| Playing.BoundIsExact | match-server/loot.go:129-149 | from every state with a cleared ground, something to drop and something spare, moves with just 25536 new boxes lead to a state in which a drop loses an item |
| Playing.EveryLoadoutCanCrowd | match-server/cssync.go:100-168 | every fresh loadout with a pistol is such a state |
| Loadout.ClearIs | match-server/loot.go:308-316 | clearing a slot in the list is removing its key from the slot map |
| Loadout.Session.SetEquip | match-server/purchase.go:350-358 | the slot is set in place or appended; every other entry stays where it is |
| Loadout.Session.ClearEquip | match-server/loot.go:308-316 | in-place compaction removes the slot and keeps the others in order |
| Loadout.Session.FindLoadoutWeapon | match-server/loot.go:298-305 | a slot with that weapon if there is one |
| Loadout.Session.EquipSlotOf | match-server/equip.go:82-89 | the slot that holds the item if there is one |
| Loadout.Session.TrackedByData | match-server/loot.go:189-196 | another stack of the data if there is one |
| Loadout.Session.RemoveTrackedItem | match-server/loot.go:202-223 | the item is gone from weapons, slots, tracking and hand, and nothing else is |
| Loadout.Session.RemoveLoadoutWeapon | match-server/loot.go:323-339 | the same by slot, returning the weapon |
| Loadout.Session.AllocContainerID | match-server/loot.go:129-149 | ids stay in the band 40000..65535 and wrap inside it |
| Loadout.Session.DropToGround | match-server/loot.go:230-272 | the item joins the box found, or gets a new one; no item at all is left alone |
| Loadout.Session.RemoveItemFromContainer | match-server/loot.go:287-295 | in-place compaction takes just that item out of the box |
| Loadout.Session.NextUID | match-server/purchase.go:344-347 | uniques count up, in 32 bits |
| Loadout.Session.BuildWeaponAttachments | match-server/attachment.go:94-108 | each attachment is issued as one new item |
| Loadout.Session.HandleDrop | match-server/loot.go:474-497 | a drop makes the specified transition; unknown items and the fist are ignored |
| Loadout.Session.PickupWeaponSlot | match-server/purchase.go:117-130 | an empty primary slot, else the held one, else the first; pistols have their own |
| Loadout.Session.InstallWeapon | match-server/loot.go:389-409 | the weapon is in its slot with attachments, what was there is out of the loadout and returned |
| Loadout.Session.PickUpWeapon | match-server/loot.go:385-462 | a weapon pickup makes the specified transition |
| Loadout.Session.FoldInto | match-server/loot.go:430-443 | the two stacks become one under the picked unique, which takes over slot and hand |
| Loadout.Session.PickUpOther | match-server/loot.go:423-462 | any other pickup makes the specified transition |
| Loadout.Session.FindLoot | match-server/loot.go:275-284 | the box and item with that unique if it lies anywhere |
| Loadout.Session.HandlePickup | match-server/loot.go:369-467 | a pickup of an item that lies somewhere is one of the moves that conserve; otherwise nothing happens |
| Loadout.Session.GiveAmmo | match-server/purchase.go:166-171 | one stack of the full reserve |
| Loadout.Session.BuyGun | match-server/purchase.go:286-319 | buying a weapon makes the specified transition |
| Loadout.Session.BuyThing | match-server/purchase.go:320-341 | a repeat buy joins the existing stack unless it is armour |
| Loadout.Session.GiveLoadout | match-server/cssync.go:100-168 | the loadout starts over as specified |
| Loadout.Session.ReissueLoadout | match-server/cssync.go:249-262 | the medkits are two again, in their stack or a new one |
| EquipDiff.EquipSnapshot | match-server/equip.go:181-187 | the slot map of the list |
| EquipDiff.Gained | match-server/equip.go:198-205 | the first loop reports every slot of the list whose item is another one now |
| EquipDiff.BroadcastEquipDiff | match-server/equip.go:197-212 | replaying the changes on the old slots gives the new ones; every change is a real one; none are sent exactly if nothing changed |
| Gloo.OrBit | match-server/gloo.go:85 | or works bit by bit |
| Gloo.WallIDBelow | match-server/gloo.go:83-89 | below 2^24 a wall id is the base plus the number of the wall |
| Gloo.WallIDWraps | match-server/gloo.go:83-89 | wall number 2^24 gets the smallest id of all |
| Gloo.IDsGrow | match-server/gloo.go:81-89 | ids of the first n walls grow strictly exactly while n < 2^24 |
| Gloo.IDsDistinct | match-server/gloo.go:81-89 | ids of the first n walls are all different exactly while n <= 2^24: wall 2^24+1 has that of the first |
| Gloo.PlaceKeeps | match-server/gloo.go:240-263 | a placement keeps the list strictly rising, everybody within three walls and every wall live |
| Gloo.DamageKeeps | match-server/gloo.go:273-300 | so does damage |
| Gloo.SweepKeeps | match-server/gloo.go:309-321 | so does the sweep |
| Gloo.RunSound | match-server/gloo.go:179-336 | so does every run of fewer than 2^24 placements: ids strictly rising, at most three walls each, 0 < hp <= 750 and the crack state that goes with it |
| Gloo.SpreeFalls | match-server/gloo.go:83-89 | when one owner places 2^24 walls the last two on the list are in the wrong order |
| Gloo.RisingExactly | match-server/gloo.go:81-89 | the list is in order after all runs of up to n placements exactly while n < 2^24 |
| Gloo.RemovalIsFilter | match-server/gloo.go:123-130 | taking out the first wall with an id is the order-preserving filter |
| Gloo.TrimKeepsNewest | match-server/gloo.go:254-263 | the trim loop keeps the owner's newest three walls and everybody else's, in order |
| Wear.Placed | match-server/gloo.go:240-263 | a placement leaves the owner's newest two walls, everybody else's, and a new one of 750 hit points |
| Wear.WearsDown | match-server/gloo.go:273-300 | after any hits on a live wall it has lost their sum, 25 for each of none, and shows the crack state that goes with what is left; if nothing is it is gone. No other wall is touched |
| Wear.Swept | match-server/gloo.go:309-321 | a sweep takes just the walls that have stood for 90 s |
| GlooWalls.SpendsOne | match-server/gloo.go:200-223 | a placement takes exactly one of the gloo data and nothing of any other |
| GlooWalls.SpendKeeps | match-server/gloo.go:200-223 | the inventory invariant survives it |
| GlooWalls.SwitchedToGun | match-server/gloo.go:205-217 | after the last wall the hand holds a gun exactly if there is one to go back to |
| GlooWalls.GlooCount | match-server/gloo.go:138-152 | the stack in the building slot if there is one, else any, and its count |
| GlooWalls.HandlePlaceIcewall | match-server/gloo.go:179-263 | a wall is placed and one unit paid exactly if the stack is not empty; infinite gloo pays nothing; the remembered gun is forgotten exactly with the last wall; otherwise nothing happens |
| GlooWalls.PayWall | match-server/gloo.go:200-223 | the stack shrinks by one, or goes with its slot, the hand switches and the remembered gun is forgotten |
| GlooWalls.Walls.constructor | match-server/gloo.go:83-89 | no walls, no ids |
| GlooWalls.Walls.OwnerWallCount | match-server/gloo.go:102-109 | the loop counts an owner's walls |
| GlooWalls.Walls.PopOldestWall | match-server/gloo.go:112-120 | the owner's first wall is shifted out and returned |
| GlooWalls.Walls.PlaceWall | match-server/gloo.go:246-263 | the wall list is that after a placement |
| GlooWalls.Walls.RemoveWallByID | match-server/gloo.go:123-130 | the first wall with the id is shifted out |
| GlooWalls.Walls.IcewallDamage | match-server/gloo.go:273-300 | damage, zero standing for 25, wears the wall down or breaks it |
| GlooWalls.Walls.SweepWalls | match-server/gloo.go:309-321 | in-place compaction keeps just the walls younger than 90 s |
| GlooWalls.Walls.ClearWalls | match-server/gloo.go:328-334 | no walls are left, the ids go on |
| Guard.TableBounded | match-server/guard.go:51-55 | the table never has more than 8192 entries |
| Guard.RunLimits | match-server/guard.go:45-96 | after every run the entries cover what got through, in the current window and the second before |
| Guard.SecondLimited | match-server/guard.go:45-76 | no second lets more than 800 through of a tracked source, however datagrams and pruning are interleaved |
| Guard.WindowLimited | match-server/guard.go:62-74 | and the current window at most 400 |
| Windows.ExactLimit | match-server/guard.go:45-76 | of the datagrams of a source in a second of its own each gets through exactly if they come to at most 400 with it, a bad one counting four, whatever others send and whatever is pruned |
| Windows.NotLimited | match-server/guard.go:50-57 | a new source is not tracked exactly if 8192 are, and then only its junk is dropped |
| Windows.SilentIsForgotten | match-server/guard.go:80-96 | a source that sends nothing stays as it is until a maintenance run later than its block and than a second after its window began, and is forgotten by that |
| Guard.BlockHolds | match-server/guard.go:59-96 | a tracked source that goes over the limit gets nothing through for a minute, whatever datagrams and pruning come in that time, is not forgotten, and its block ends exactly then |
| Guard.SchedulesAgree | match-server/guard.go:45-96 | two limiters that are alike answer the same datagrams alike and stay alike, however each of them is pruned in between, as long as both have room |
| Guard.AnyMaintenance | match-server/guard.go:80-96 | so from the start of the process on it does not matter when maintenance comes |
| Guard.PruningUnobservable | match-server/guard.go:80-96 | from any table on, one more pruning changes no answer and takes away no room, maintenance going on in both, while the table not pruned has room |
| Guard.Limiter.constructor | match-server/guard.go:37-40 | an empty table |
| Guard.Limiter.Check | match-server/guard.go:45-76 | one datagram is counted and answered as specified |
| Guard.Limiter.AllowSource | match-server/guard.go:45-76 | the table is the run of all events so far, so every result about runs applies |
| Guard.Limiter.Maintain | match-server/guard.go:87-93 | the loop removes just the idle entries, in any order |
| Regen.HealSplits | match-server/medkit.go:118-144 | two heal ticks do what one at the later time does, for a player within full hit points |
| Regen.HealSplitsAbove | match-server/medkit.go:118-144 | for one revived above full hit points they do exactly if the heal is over, or the first tick brings a step, or not even the second does |
| Regen.OneHitPoint | match-server/medkit.go:118-144 | in a room of 1 hit point a player just revived keeps his 20 or drops to 1, depending on when the ticks come |
| Regen.HealSplitsExactly | match-server/medkit.go:118-144 | the law holds for all heals of all hit points somebody alive can have exactly when full hit points are at least 20 and leave 75 to spare below 2^16 |
| Regen.HealWraps | match-server/medkit.go:133 | otherwise a medkit can take a player from full to zero |
| Regen.HealsInAll | match-server/medkit.go:118-144 | whenever the ticks come, a medkit has given a hit point for each 66.666666 ms by the last of them, 75 in all, as far as there is room |
| Regen.DownEndsHeal | match-server/medkit.go:118-125 | the heal of somebody who is down at a tick is over for good, even if he is up again |
| Regen.OneForOne | match-server/ep.go:54-65 | energy turns into hit points one for one, never past full |
| Regen.OneForOneExactly | match-server/ep.go:54-65 | for a tick that law holds exactly when the hit points, before they are capped at full, fit 16 bits |
| Regen.OneForOneAlways | match-server/ep.go:54-65 | for every tick exactly when full hit points leave 200 to spare below 2^16 |
| Regen.GainExact | match-server/ep.go:49-65 | a tick gives one hit point per 250 ms as far as energy and room allow, exactly when the 16-bit step count loses nothing that matters |
| Regen.EnergySplits | match-server/ep.go:35-67 | two energy ticks do what one at the later time does, exactly when the 16-bit step count loses nothing that matters |
| Regen.GainBounded | match-server/ep.go:35-67 | over any run of ticks, damage and mushrooms, energy gives at most one hit point per 250 ms elapsed |
| Regen.NothingBanked | match-server/ep.go:41-48 | time at full hit points is not banked |
| Regen.MushroomsFill | match-server/ep.go:23-30 | mushrooms one after the other give 100 each, up to 200 in all |
| Regen.MushroomStartsAnew | match-server/ep.go:23-30 | a mushroom starts the clock anew: nothing is owed for the time before it |
| Regen.HealTickIsTreat | match-server/medkit.go:118-144 | what a heal tick does to the match is one treatment event with the steps that have come due, or nothing |
| Regen.EnergyTickIsFeed | match-server/ep.go:35-67 | what an energy tick does to it is one feeding event, or nothing |
| Regen.Body.UseMedkit | match-server/medkit.go:106-110 | the heal starts over |
| Regen.Body.StepHeal | match-server/medkit.go:118-144 | one heal tick as specified |
| Regen.Body.GrantMushroom | match-server/ep.go:23-30 | energy up to the cap, the clock starts anew |
| Regen.Body.StepEP | match-server/ep.go:35-67 | one energy tick as specified, whatever the settings |
| Regen.Body.ResetEP | match-server/ep.go:70-73 | no energy, no mushrooms |

## Left out

Not modelled at all:

- Sockets, the Redis bus, the XDP program, logging, goroutines and channels: events are atomic steps, clocks, salts and random choices are arguments.
- Most packet builders, handlers that only relay, spectators, replays and the damage column of the scoreboard: plumbing.
- The Node tier: request handling, dashboards, stores, migrations.
- sweepDisconnects, and what removePlayer and retireBot do to the maps of a running match: `Roster` has who is on it, and during a run of `Lives` that is fixed.
- handleEquip with arbitrary destination slots, pickups of another player's items, the use (cmd 113) of a weapon or of armour, and a second stack of the same ammunition: the code does not keep the inventory invariant there.
- Weapon tables, attachments' mounts, skins, armour wear and the shop catalogue: arbitrary functions of `Inventory.Kinds`, or nothing.
- Zone geometry, facing and the distance search for a box: the box found is an argument.
- HMAC verification, gzip payloads, arena choice and the reconnect path.

Modelled with less than the source has:

- DeathMatch.Match.constructor: the wallet is the one giveLoadout seeds (match-server/cssync.go:106-108) before the first shop opens; the amount that run() gives the host until then under the money-test switch is not modelled.
- DeathMatch.Match.Treat: states the effect on the match's hp; when it comes is in `Regen`, whose objects hold their own copy of it (`Regen.HealTickIsTreat`).
- DeathMatch.Match.Feed: as `Treat` (`Regen.EnergyTickIsFeed`).
- Books.KillsPaidOnce: for fewer than 2^32 kills; `Books.WaitingKills` has the law modulo 2^32.
- Lives.RunSafe: for full hit points that leave 200 to spare up to 2^16; `Limits.SafeExactly` shows that it is needed.
- Phases.RunSound: for round counts that can be decided; `Phases.RoundCountsThatWork` says which those are.
- Rounds.Game.Tick: the roster is that of the started match; whether the teams are ready is an argument.
- Rescues.OrderNeverMatters: for rescue ticks that the loop does not hold up for four seconds; the source sets no bound on a handler.
- Delivery.SentAgain: for ticks that look at the whole buffer, as Go's loop over a map nobody changes does, and until a later packet takes the id, which 2^16 packets later one does.
- Rounds.CoinsOfMatch: modulo 2^32, and for the round counts that can be decided; `Rounds.Game` keeps its hypothesis about the log under that condition.
- Sender.RunDelivers: for packets that can be framed; one that cannot be uses up its ids.
- Playing.AlwaysSound: for unique ids that have not wrapped at 2^32, counted from what the acts issue.
- Phases.BoundedMoves: bounds the changes of phase; that each fight ends is up to the players.
- Inventory.DropKeeps: boxes are lists in a map by id; that the Go code keeps using a box after its id was given to another one is modelled, other aliasing is not.
- Inventory.PickWeaponKeeps: for unique ids that have not wrapped at 2^32.
- Inventory.BuyWeaponKeeps: for unique ids that have not wrapped at 2^32.
- Inventory.BuyOtherKeeps: for unique ids that have not wrapped at 2^32.
- Inventory.GiveLoadoutKeeps: for unique ids that have not wrapped at 2^32.
- Loadout.Session.ReissueLoadout: only the medkits; refilled magazines and reserves are sent but not stored.
- Gloo.RunSound: for fewer than 2^24 placements; `Gloo.RisingExactly` shows that it is needed.
- Guard.PruningUnobservable: while the table not pruned has room for the sources that turn up; a full table treats new sources differently.
- Guard.SchedulesAgree: while both tables have room for the sources that turn up.
- Regen.HealSplits: states hit points and whether the heal is still active, not the step count of a heal that has ended.
- TeaMessage.TeaEncrypt: the salt is an argument; a failing random source is not modelled.
