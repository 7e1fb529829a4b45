# Verified model of the WireGuard stack and the Newt frame reassembly

This project models, in Dafny, the WireGuard implementation of the ESP component `esp_wireguard`
and the websocket frame reassembly of the Newt client, and proves what they are for. It has six
layers, each feeding the next.

- **Authenticator, cipher and hash** (`Bits`, `Bytes`, `Limbs26`, `Poly1305`, `Poly1305Donna`,
  `ChaCha20`, `Aead`, `AeadReference`, `ZeroKey`, `HChaChaVector`, `Blake2s`, `Blake2sVectors`,
  `Kdf`). The streaming code keeps its form: contexts are classes with the C fields, buffers are
  arrays that may overlap as in C. Words are subsets of `int`, so every addition, product and
  carry that must not wrap in 32 or 64 bits is a proof obligation, and every one that may wrap
  is written with its remainder. Each context is proved against a whole-message definition:
  sections 2.3 to 2.8 of RFC 7539, section 3.3 of RFC 7693, section 2 of RFC 2104. The
  definitions in turn are held to the pseudo-code of the standards and to known answers in which
  all words differ.
- **Handshake** (`Messages`, `Noise`, `NoiseReference`, `NoisePeer`). The transcripts of
  sections 5.4.2, 5.4.3 and 5.4.5 of the WireGuard paper as functions, agreement of the two ends
  about them, and the in-place code that computes them; `NoiseReference` states the pattern
  IKpsk2 token by token as the Noise specification does and proves the transcripts equal to it.
  The scalar multiplication is a function parameter; that it commutes, and that it clamps its
  scalar, are explicit hypotheses. Random keys, indices and clock readings are inputs.
- **Sessions** (`Replay`, `Keypairs`, `Session`, `SessionSafety`, `SessionReplay`,
  `SessionLaws`, `SessionRuns`, `SessionPeer`). Three keypair slots as a state machine over
  sends, receipts, handshakes, timer ticks and disconnects, with the exact effect of every step
  in numbers and invariants over all runs; `SessionPeer` is the same code in place, takes
  exactly these steps and keeps these invariants. Every clock reading, allocation, send result
  and decryption verdict is an input, so the theorems hold for all of them. `session`, `roles`,
  `sent` and `receipts` are histories that exist in the model only.
- **End to end** (`Transport`, `Tunnel`, `Datagrams`, `Timestamps`, `Cookies`). Packets between
  mirrored sessions, the whole exchange from initiation to the first keepalive over messages and
  over datagrams, the order and spacing of initiations, and the cookie mechanism.
- **Two ends** (`Joint`, `JointSafety`, `JointDelivery`). Both peers step by step over a network
  that may deliver any handshake message or packet ever made, late, twice or never, and any
  forged packet. Over every interleaving, keypairs with matching indices mirror each other and
  every packet ever sent opens at the other end or finds no keypair there; without forgeries,
  whatever passes the replay check was sent by the other end and, in sessions that the receiver
  initiated, is delivered once. `Noise.AddPairs` and `JointSafety.MeetingMatches` show that the
  hypotheses can be met and that such keypairs are reached.
- **Byte machines** (`Base64`, `Reassembly`).

Where a promise turned out to hold only under a condition, the code was kept and the exact
condition proved:

- The replay window keeps the distance in 32 bits. `Replay.CheckExact` and `Replay.RunExact` say
  exactly when that does no harm. Both ways of doing harm occur: a counter 2^32 or more behind
  can be accepted (`Replay.FarBehindAccepted`), and a jump 2^32 or more ahead can mark counters
  that never came, whose packets are then rejected (`Replay.JumpMarksStranger`).
- A packet that promotes a responder-role session is checked against the cleared slot, so it can
  be delivered twice (`SessionReplay.PromotingPacketTwice`,
  `SessionReplay.RejectedAgainExactly`, with a run from every fresh peer in
  `SessionReplay.DeliveredTwice`); `SessionReplay.PayloadsAdmittedOnce` says that nothing else
  can.
- An initiation recorded at clock zero does not hold back the next one
  (`Timestamps.PauseExactly`, with a run from a fresh peer in `Timestamps.TwoAtOnce`), and a
  cookie stored at tick zero is never used (`Cookies.CookieUnused`). A keepalive heard at tick
  zero moves the responder to the new session but leaves it sending under the previous one
  (`Tunnel.ReplyExactly`, `Datagrams.ReplyAfterExchange`, `Datagrams.FallsBack`).
- AEAD decryption keeps the length in a signed `int`, so for texts of 2^31 bytes or more it
  authenticates another length than encryption did. `Aead.OpenSealExactly` says exactly when
  such a text comes back. With g the product of the multiplier r and the difference of the two
  length blocks modulo 2^130 - 5, none does unless the low 128 bits of g are 0 or 2^128 - 5,
  which depends on key and nonce alone (`Aead.LongTextsRejected`); the all-zero key with nonce
  zero is one for which none does (`ZeroKey.LongTextsLost`).
- The base64 decoder also accepts a last group with three padding characters, which it counts as
  no byte although it writes one, and ignores spare bits. `Base64.OverrunExactly` says for which
  strings it writes beyond the room it was given: one fixed place of the string decides, and
  only if the room is a multiple of three, so the 32 bytes that both callers give are never
  overrun (`Base64.RoomSuffices`). `Base64.EncodeDecode` says which accepted strings are the
  encoding of what they stand for.

Where comments and code disagree, the model follows the code. The comment at `wireguard.c:631`
speaks of one initiation per peer every 5 seconds; the test at line 633 compares the reversed
difference of the clocks with 500 ms, and that is what `Timestamps.Accepts` states. The comment
at `wireguard.c:1099` asks for padding to a multiple of 3; the test is for groups of four
characters.

`dafny verify dfyconfig.toml` checks the whole project.

## Model

| member | source | states |
|---|---|---|
| Limbs26.Multiply | examples/basic/components/esp_wireguard/src/crypto/refc/poly1305-donna-32.h:111-116 | The five 64-bit column sums of limbs that the loop can hold equal the schoolbook columns of the product with the wrapped rows times five; every product sum fits 58 bits and `5 * r` fits 32 |
| Limbs26.CarryPass | examples/basic/components/esp_wireguard/src/crypto/refc/poly1305-donna-32.h:118-125 | The carry chain, with 32-bit carries including `c * 5`, never wraps, changes the number by a multiple of 2^130 - 5 and leaves h0, h2, h3, h4 below 2^26 and h1 below 2^26 + 2^6 |
| Limbs26.MultiplyReduce | examples/basic/components/esp_wireguard/src/crypto/refc/poly1305-donna-32.h:111-125 | One pass of the loop body multiplies modulo 2^130 - 5 and re-establishes the limb bounds it started from, so they hold for any number of blocks |
| Limbs26.FullCarry | examples/basic/components/esp_wireguard/src/crypto/refc/poly1305-donna-32.h:163-168 | From every state the block loop can leave, the single pass normalises all five limbs and changes the number by 0 or 2^130 - 5 |
| Limbs26.SubtractP | examples/basic/components/esp_wireguard/src/crypto/refc/poly1305-donna-32.h:171-175 | The wrapped top limb of h + 5 - 2^130 has its sign bit set when h is below 2^130 - 5; otherwise the limbs are those of h minus p |
| Limbs26.Canonical | examples/basic/components/esp_wireguard/src/crypto/refc/poly1305-donna-32.h:171-189 | Subtraction and masked selection yield the unique representative below 2^130 - 5, for every normalised input |
| Limbs26.Repack | examples/basic/components/esp_wireguard/src/crypto/refc/poly1305-donna-32.h:192-195 | Shifting and or-ing the five limbs into four words is the number modulo 2^128 |
| Limbs26.AddPad | examples/basic/components/esp_wireguard/src/crypto/refc/poly1305-donna-32.h:198-201 | The 64-bit carry chain adds the pad exactly modulo 2^128 |
| Poly1305.HornerEvaluates | examples/basic/components/esp_wireguard/src/crypto/refc/poly1305-donna-32.h:103-129 | Horner's rule, the accumulation the loop performs, evaluates the polynomial of section 2.5 of RFC 7539 for every multiplier and message |
| Poly1305.HornerSplit | examples/basic/components/esp_wireguard/src/crypto/refc/poly1305-donna.c:27-33 | Feeding whole blocks first and the rest later gives the same evaluation as feeding all at once |
| Poly1305.LastBlockDiffers | examples/basic/components/esp_wireguard/src/crypto/refc/poly1305-donna-32.h:103-129 | Two messages that differ in the last whole block only have evaluations that differ by r times the difference of those blocks |
| Poly1305Donna.BlockLimbs | examples/basic/components/esp_wireguard/src/crypto/refc/poly1305-donna-32.h:105-109 | The five unaligned, shifted and masked loads of a block are the 26-bit limbs of its little-endian value |
| Poly1305Donna.LoadClamped | examples/basic/components/esp_wireguard/src/crypto/refc/poly1305-donna-32.h:54-58 | The five masked loads of the key are the limbs of r clamped byte by byte as in section 2.5 of RFC 7539 |
| Poly1305Donna.AddBlock | examples/basic/components/esp_wireguard/src/crypto/refc/poly1305-donna-32.h:105-109 | Adding a block with its high bit never wraps a 32-bit limb and adds exactly the block's value |
| Poly1305Donna.Poly1305State.Init | examples/basic/components/esp_wireguard/src/crypto/refc/poly1305-donna-32.h:50-75 | Afterwards the state stands for the given key and no bytes fed |
| Poly1305Donna.Poly1305State.Blocks | examples/basic/components/esp_wireguard/src/crypto/refc/poly1305-donna-32.h:78-136 | For every number of blocks the accumulator absorbs each block with or without 2^128 according to the final flag, limb bounds kept |
| Poly1305Donna.Poly1305State.Update | examples/basic/components/esp_wireguard/src/crypto/refc/poly1305-donna.c:7-41 | The bytes fed grow by exactly the argument, whatever was left over before and however the message is split |
| Poly1305Donna.Poly1305State.Finish | examples/basic/components/esp_wireguard/src/crypto/refc/poly1305-donna-32.h:139-223 | For every key and every message fed in any split, the 16 bytes written are the tag of section 2.5 of RFC 7539 over the whole message, nothing else in the buffer changes, and the state is wiped |
| ChaCha20.InnerBlockInPlace | examples/basic/components/esp_wireguard/src/crypto/refc/chacha20.c:62-77 | The in-place quarter rounds compute the double round (four columns, four diagonals) as a function of the old block |
| ChaCha20.ChaCha20Context.BlockInto | examples/basic/components/esp_wireguard/src/crypto/refc/chacha20.c:102-115 | Writes the key stream block of section 2.3 of RFC 7539: twenty rounds plus the initial state, little-endian; the state is untouched |
| ChaCha20.ChaCha20Context.Crypt | examples/basic/components/esp_wireguard/src/crypto/refc/chacha20.c:117-140 | For every length and for distinct or identical buffers, output byte i is input byte i xor byte i mod 64 of block counter + i / 64; the counter advances by the number of blocks begun; bytes outside stay |
| ChaCha20.EncryptInvolution | examples/basic/components/esp_wireguard/src/crypto/refc/chacha20.c:117-140 | Encrypting twice from the same state returns the text |
| ChaCha20.EncryptSplit | examples/basic/components/esp_wireguard/src/crypto/refc/chacha20.c:117-140 | A text cut at any multiple of 64 bytes may be encrypted in two calls with the state carried over |
| ChaCha20.CountedTwice | examples/basic/components/esp_wireguard/src/crypto/refc/chacha20.c:124-125 | Advancing the wrapping block counter is additive |
| ChaCha20.ChaCha20Context.Init | examples/basic/components/esp_wireguard/src/crypto/refc/chacha20.c:149-166 | The state is constants, key, zero counter word and the 64-bit nonce in words 14 and 15 |
| ChaCha20.StateBytes | examples/basic/components/esp_wireguard/src/crypto/refc/chacha20.c:149-166 | For every key, block counter and nonce the state is, byte by byte, "expand 32-byte k", the key, the counter, four zero bytes and the nonce, little-endian (section 2.3 of RFC 7539 with a 64-bit nonce) |
| ChaCha20.HChaCha20 | examples/basic/components/esp_wireguard/src/crypto/refc/chacha20.c:172-202 | The subkey is the first and last four words after twenty rounds, without the final addition |
| ChaCha20.HChaChaBytes | examples/basic/components/esp_wireguard/src/crypto/refc/chacha20.c:172-190 | The permuted state is, byte by byte, the constant, the key and the first 16 bytes of the nonce |
| HChaChaVector.SubkeyVector | examples/basic/components/esp_wireguard/src/crypto/refc/chacha20.c:172-202 | Known answer with unequal key and nonce words: the subkey of section 2.2.1 of draft-irtf-cfrg-xchacha |
| Aead.OpenSealExactly | examples/basic/components/esp_wireguard/src/crypto/refc/chacha20poly1305.c:67-162 | For every key, nonce, associated data and every text whose box a 32-bit length can describe, opening the sealed box returns the text if and only if the length fits the signed variable, or r times the length gap, reduced, has the one low half (0, or 2^128 - 5 when the sum wraps around at 2^130 - 5) that leaves the tag unchanged; otherwise it fails |
| Aead.OpenSeal | examples/basic/components/esp_wireguard/src/crypto/refc/chacha20poly1305.c:67-162 | In particular every text shorter than 2^31 comes back |
| Aead.OpenIsSeal | examples/basic/components/esp_wireguard/src/crypto/refc/chacha20poly1305.c:107-162 | A box that opens is the seal of the text it opens to, so that nothing else opens to it, if and only if both directions compute the same tag for it, in particular for every box shorter than 2^31 |
| Aead.LongTextsRejected | examples/basic/components/esp_wireguard/src/crypto/refc/chacha20poly1305.c:122-123 | A condition on key and nonce alone: unless the reduced product of r and the length gap has low half 0 or 2^128 - 5, no text of 2^31 bytes or more comes back, whatever the text and the associated data |
| Aead.ZeroGapKept | examples/basic/components/esp_wireguard/src/crypto/refc/chacha20poly1305.c:122-123 | Under a one-time key whose r is zero every text comes back, however long; no key with that r is exhibited |
| ZeroKey.BlockWords | examples/basic/components/esp_wireguard/src/crypto/refc/chacha20.c:68-115 | The sixteen words of block zero under the all-zero key and nonce, computed through all eighty quarter rounds, are those of test vector 1 in appendix A.1 of RFC 7539 |
| ZeroKey.LongTextsLost | examples/basic/components/esp_wireguard/src/crypto/refc/chacha20poly1305.c:122-123 | A real failing key: under the all-zero key and nonce zero, no text of 2^31 bytes or more comes back |
| Aead.XOpenSealExactly | examples/basic/components/esp_wireguard/src/crypto/refc/chacha20poly1305.c:169-193 | The same exact verdict for the 192-bit-nonce form, with the derived key and the last 8 nonce bytes |
| Aead.XOpenSeal | examples/basic/components/esp_wireguard/src/crypto/refc/chacha20poly1305.c:169-193 | In particular every text shorter than 2^31 comes back in that form |
| Aead.PadLength | examples/basic/components/esp_wireguard/src/crypto/refc/chacha20poly1305.c:83-84 | The masked rounding expression is the distance to the next multiple of 16 for every 32-bit length, wrap-around included |
| AeadReference.SealIsStandard | examples/basic/components/esp_wireguard/src/crypto/refc/chacha20poly1305.c:67-105 | For every key, nonce, associated data and text, sealing is the pseudo-code of RFC 7539 written down by itself: the block-by-block encryption of section 2.4.1 from counter one, the accumulator with the masked r of section 2.5.1, and the padded string of section 2.8 under the first half of block zero |
| AeadReference.XSealIsStandard | examples/basic/components/esp_wireguard/src/crypto/refc/chacha20poly1305.c:169-179 | The same for the 192-bit-nonce form: the subkey of the first 16 nonce bytes, and the other eight as nonce |
| AeadReference.MacIs | examples/basic/components/esp_wireguard/src/crypto/refc/poly1305-donna-32.h:50-75 | The tag of the definition is that of the pseudo-code, which masks the number r with 0x0ffffffc0ffffffc0ffffffc0fffffff and appends 01 to every block |
| AeadReference.EncryptIs | examples/basic/components/esp_wireguard/src/crypto/refc/chacha20.c:117-140 | Encryption byte by byte from the counted state is the pseudo-code block by block, for texts of any length |
| Aead.GeneratePoly1305Key | examples/basic/components/esp_wireguard/src/crypto/refc/chacha20poly1305.c:49-64 | The one-time key is the first half of block zero and the cipher is left at block one |
| Aead.Authenticate | examples/basic/components/esp_wireguard/src/crypto/refc/chacha20poly1305.c:79-95 | The bytes fed to the authenticator are the padded associated data, the padded ciphertext and the two lengths of section 2.8 of RFC 7539 |
| Aead.EncryptInto | examples/basic/components/esp_wireguard/src/crypto/refc/chacha20poly1305.c:67-105 | Writes the sealed box over dst, in place or into a distinct buffer, and nothing else |
| Aead.DecryptInto | examples/basic/components/esp_wireguard/src/crypto/refc/chacha20poly1305.c:108-162 | Returns whether the box opens; if so dst receives the text, otherwise dst is untouched; in place or not |
| Aead.XEncryptInto | examples/basic/components/esp_wireguard/src/crypto/refc/chacha20poly1305.c:169-179 | The same with the derived subkey and the last 8 nonce bytes |
| Aead.XDecryptInto | examples/basic/components/esp_wireguard/src/crypto/refc/chacha20poly1305.c:181-193 | The same with the derived subkey and the last 8 nonce bytes |
| Aead.Equal | examples/basic/components/esp_wireguard/src/crypto.c:14-26 | The accumulating xor-or loop is true exactly for equal byte strings |
| Blake2s.Blake2sContext.Init | examples/basic/components/esp_wireguard/src/crypto/refc/blake2s.c:78-103 | Rejects exactly the illegal parameters; otherwise the bytes fed so far are the key padded to a block, or nothing |
| Blake2s.Blake2sContext.Update | examples/basic/components/esp_wireguard/src/crypto/refc/blake2s.c:106-121 | The bytes fed grow by exactly the argument while the last block is held back: buffer, position, two-word counter and chained state keep describing everything fed |
| Blake2s.Blake2sContext.BumpCounter | examples/basic/components/esp_wireguard/src/crypto/refc/blake2s.c:113-115 | The two 32-bit words with the hand-made carry count bytes modulo 2^64 |
| Blake2s.Blake2sContext.CompressBlock | examples/basic/components/esp_wireguard/src/crypto/refc/blake2s.c:31-73 | The in-place compression of the buffer under the counter and the last-block flag is the compression function of section 3.2 of RFC 7693 |
| Blake2sVectors.PlainVector64 | examples/basic/components/esp_wireguard/src/crypto/refc/blake2s.c:31-73 | Known answer of one block whose sixteen words all differ, so that every entry of the permutation table counts: the digest of the bytes 00 to 3f |
| Blake2sVectors.KeyedVector36 | examples/basic/components/esp_wireguard/src/crypto/refc/blake2s.c:78-142 | Known answer over two blocks with a key, the last one not full: the digest of the bytes 00 to 23 under the key 00 to 1f, with key block, running counter, padding and last-block flag |
| Blake2sVectors.MacParameters | examples/basic/components/esp_wireguard/src/crypto/refc/blake2s.c:86-88 | The parameter word of a 16-byte MAC under a 32-byte key |
| Blake2sVectors.CookieParameters | examples/basic/components/esp_wireguard/src/crypto/refc/blake2s.c:86-88 | The same under a 16-byte cookie |
| Blake2s.Blake2sContext.Final | examples/basic/components/esp_wireguard/src/crypto/refc/blake2s.c:125-142 | The digest is that of section 3.3 of RFC 7693 over all bytes fed, for any split, including the empty message, keyed-empty input and exact multiples of 64 |
| Blake2s.ChainPrefix | examples/basic/components/esp_wireguard/src/crypto/refc/blake2s.c:111-118 | Blocks compressed early do not depend on what is fed later |
| Blake2s.CounterAdds | examples/basic/components/esp_wireguard/src/crypto/refc/blake2s.c:113-115 | Adding with the comparison-based carry is addition modulo 2^64 for every counter value |
| Blake2s.Blake2s | examples/basic/components/esp_wireguard/src/crypto/refc/blake2s.c:145-156 | The one-call form is the whole-message hash, or a rejection for illegal parameters |
| Kdf.HmacInto | examples/basic/components/esp_wireguard/src/wireguard.c:228-273 | Computes section 2 of RFC 2104 over BLAKE2s for keys of any length, also when the digest overwrites the text it authenticates |
| Kdf.Kdf1 | examples/basic/components/esp_wireguard/src/wireguard.c:275-289 | tau1 is the first output of the derivation chain of the old chaining key, also when it overwrites that key |
| Kdf.Kdf2 | examples/basic/components/esp_wireguard/src/wireguard.c:291-310 | tau1 and tau2 are the first two outputs of the same chain, so one KDF is a prefix of the other |
| Kdf.Kdf3 | examples/basic/components/esp_wireguard/src/wireguard.c:312-336 | All three outputs of the same chain, with tau1 allowed to alias the chaining key |
| Kdf.MixHash | examples/basic/components/esp_wireguard/src/wireguard.c:220-226 | The hash is replaced by the hash of itself followed by the data |
| NoiseReference.HmacIs | examples/basic/components/esp_wireguard/src/wireguard.c:228-273 | The function that the in-place HMAC computes is section 2 of RFC 2104, with 36 inside and 5c outside, for keys of every length |
| NoiseReference.TauIsHkdf | examples/basic/components/esp_wireguard/src/wireguard.c:275-340 | The derivation chain is HKDF of section 4.3 of the Noise specification: every output hashes the one before it and its number |
| Keypairs.Limits | examples/basic/components/esp_wireguard/src/wireguard.h:69-76 | The limits of section 6.1 of the WireGuard paper as numbers, and expiry as a difference of 32-bit clocks in milliseconds |
| Replay.CheckReplay | examples/basic/components/esp_wireguard/src/wireguard.c:338-383 | The branches of the window check compute the specified window and verdict |
| Replay.CheckExact | examples/basic/components/esp_wireguard/src/wireguard.c:338-383 | For every window and the set of accepted counters it stands for: the call accepts exactly the counters that are new and ahead or fewer than 32 behind and leaves a window that stands for the new set, if and only if the 32-bit distance does no harm (it is small, or it misses: ahead, no old bit is shifted to a place below the new counter; behind, the tested bit is set) |
| Replay.VerdictExact | examples/basic/components/esp_wireguard/src/wireguard.c:341-379 | For every window and the set it stands for, the verdict alone is wrong if and only if the counter is 2^32 or more behind, looks near and hits a clear bit |
| Replay.FarBehindAccepted | examples/basic/components/esp_wireguard/src/wireguard.c:341-379 | Witness behind: the second packet of a fresh keypair may be accepted although it is 2^32 + 1 behind |
| Replay.JumpMarksStranger | examples/basic/components/esp_wireguard/src/wireguard.c:341-379 | Witness ahead: a rightly accepted jump by 2^32 + 10 marks a counter that was never accepted, and its packet, new and 10 behind, is rejected |
| Replay.DuplicateRejected | examples/basic/components/esp_wireguard/src/wireguard.c:338-383 | In any state of the window, also an aliased one, an accepted counter is rejected when it comes again at once |
| Replay.RunExact | examples/basic/components/esp_wireguard/src/wireguard.c:338-383 | From a fresh keypair, for every run: every verdict is right and the window stands for the accepted set after every call, if and only if no call meets a harmful distance |
| Replay.RunRefines | examples/basic/components/esp_wireguard/src/wireguard.c:338-383 | Over every such run bit d is set exactly when counter - d was accepted |
| Replay.AcceptedOnce | examples/basic/components/esp_wireguard/src/wireguard.c:338-383 | Over such a run no counter is accepted twice |
| Replay.AcceptableExactly | examples/basic/components/esp_wireguard/src/wireguard.c:338-383 | What the window is for, in numbers: a counter below 2^64 - 1 that is new and less than 32 behind the highest |
| SessionSafety.LookupExact | examples/basic/components/esp_wireguard/src/wireguard.c:385-394 | Under the slot invariant a receiver index selects a slot exactly when that slot is valid and carries it, so at most one slot answers |
| SessionSafety.StepSlots | examples/basic/components/esp_wireguard/src/wireguard.c:385-535 | Every send, receipt, handshake, timer tick and disconnect keeps the slot invariant |
| SessionSafety.RunSlots | examples/basic/components/esp_wireguard/src/wireguard.c:385-535 | The slot invariant is kept over every run from every state that has it |
| SessionSafety.SlotsDistinct | examples/basic/components/esp_wireguard/src/wireguard.c:466-535 | In every state reachable from a fresh peer no session occupies two slots; valid keypairs and the pending handshake have distinct indices outside {0, 0xFFFFFFFF}; a valid next slot is a responder's and was never sent under |
| SessionSafety.StepSent | examples/basic/components/esp_wireguard/src/wireguardif.c:103-197 | Every step keeps that each session has used counters 0, 1, 2, ... and that each slot continues its session |
| SessionSafety.NoNonceReuse | examples/basic/components/esp_wireguard/src/wireguard.c:1023-1026 | Over every run from a fresh peer the counters handed to the cipher under one session are exactly 0, 1, 2, ... in order and below REJECT_AFTER_MESSAGES, however the session moves between slots |
| SessionReplay.AdmitWindow | examples/basic/components/esp_wireguard/src/wireguardif.c:327-331 | For a session in the current or previous slot a payload is admitted exactly when the session has not admitted it and it is fewer than 32 behind |
| SessionReplay.StepReceipts | examples/basic/components/esp_wireguard/src/wireguardif.c:287-363 | Every step keeps that the windows represent what their sessions admitted and that no payload was admitted twice |
| SessionReplay.PayloadsAdmittedOnce | examples/basic/components/esp_wireguard/src/wireguardif.c:287-363 | Over every run without harmful distances each payload of a session is admitted once through the window; only a promoting packet escapes it, at most one per session and only in responder-role sessions |
| SessionReplay.InitiatorExactlyOnce | examples/basic/components/esp_wireguard/src/wireguardif.c:287-363 | No counter of an initiator-role session reaches the IP layer twice, also after the session was copied to the previous slot |
| SessionReplay.PromotingPacketTwice | examples/basic/components/esp_wireguard/src/wireguardif.c:317-331 | The promise fails for every packet that promotes a responder-role session: the check runs on the cleared slot, and the same packet delivered again reaches the IP layer a second time |
| SessionReplay.RejectedAgainExactly | examples/basic/components/esp_wireguard/src/wireguardif.c:287-363 | The exact condition: an admitted payload that comes again at once is rejected if and only if its session was not in the next slot when it first came |
| SessionReplay.DeliveredTwice | examples/basic/components/esp_wireguard/src/wireguardif.c:287-363 | Witness run from every fresh peer: one initiation and then one packet under the new session, sent twice, reach the IP layer as two deliveries of one counter |
| SessionPeer.EventKeeps | examples/basic/components/esp_wireguard/src/wireguardif.c:103-392 | What every event of an object keeps: slots in order, nonces 0, 1, 2, ... per session, and windows that stand for what was admitted, under the distance hypothesis |
| SessionPeer.Peer.KeypairUpdate | examples/basic/components/esp_wireguard/src/wireguard.c:471-478 | The in-place rotation is the promotion step: next becomes current, current becomes previous, next is destroyed |
| SessionPeer.Peer.AddNewKeypair | examples/basic/components/esp_wireguard/src/wireguard.c:480-494 | The new whole state of the three slots for either role |
| SessionPeer.Peer.StartSession | examples/basic/components/esp_wireguard/src/wireguard.c:496-535 | The new keypair takes both keys, indices and role from the handshake, which is wiped |
| SessionLaws.StartedKeys | examples/basic/components/esp_wireguard/src/wireguard.c:495-533 | Whoever starts a session from chaining key C: an initiator sends under Tau(C, [], 1) and receives under Tau(C, [], 2), a responder the other way round; indices, time, counters and window are those of a fresh session |
| SessionLaws.StartedSlots | examples/basic/components/esp_wireguard/src/wireguard.c:477-493 | Which keypairs survive: an initiator's replaces the current one, and the previous slot takes the waiting one if there is one and the old current one otherwise; a responder's waits and the previous one is given up |
| SessionLaws.CompletedKeys | examples/basic/components/esp_wireguard/src/wireguardif.c:229-243 | After a completed response whose finished handshake has chaining key C, the current keypair has those keys and the keepalive goes out under Tau(C, [], 1) with counter zero |
| SessionLaws.AnsweredKeys | examples/basic/components/esp_wireguard/src/wireguardif.c:420-440 | After an answered initiation the waiting keypair receives under Tau(C, [], 1) and sends under Tau(C, [], 2), and the previous slot is empty |
| SessionLaws.KeysSplit | examples/basic/components/esp_wireguard/src/wireguard.c:509-515 | These keys are what the Noise specification splits the chaining key into |
| SessionPeer.Peer.OutputToPeer | examples/basic/components/esp_wireguard/src/wireguardif.c:103-197 | The update in place is the output step: slot choice, expiry, padding, encryption under the old counter, increment, rekey decision; the invariant of the object is kept |
| SessionLaws.SentExactly | examples/basic/components/esp_wireguard/src/wireguardif.c:103-197 | The exact effect of sending, for every state: which slot is used, that a session 180 000 ms old or with its counters used up is destroyed, and otherwise the record, the times and when a new handshake is asked for (2^60 packets, or 120 000 ms for an initiator) |
| SessionPeer.Peer.GetKeypairForIdx | examples/basic/components/esp_wireguard/src/wireguard.c:385-394 | The lookup order current, next, previous |
| SessionPeer.Peer.ProcessDataMessage | examples/basic/components/esp_wireguard/src/wireguardif.c:273-392 | The update in place is the data step: expiry before decryption, times, promotion, rekey decision, then the replay check on the selected slot; the invariant of the object is kept, and the truth of its windows for harmless distances |
| SessionLaws.HeardExactly | examples/basic/components/esp_wireguard/src/wireguardif.c:285-380 | The exact condition on receipt, for every packet that selects a slot: a session 180 000 ms old or used up is destroyed and the receipts stay; without memory or if the packet does not open nothing changes; otherwise it is heard, with all its effects on times, slots, window, receipts and the wish for a new handshake |
| SessionPeer.Peer.CheckReplay | examples/basic/components/esp_wireguard/src/wireguard.c:338-383 | Only the window of the selected slot changes, and a receipt is recorded exactly when the check passes |
| SessionPeer.Peer.GenerateUniqueIndex | examples/basic/components/esp_wireguard/src/wireguard.c:396-421 | The index is outside {0, 0xFFFFFFFF} and differs from all three keypairs and the pending handshake |
| SessionPeer.Peer.StartHandshake | examples/basic/components/esp_wireguard/src/wireguardif.c:634-658 | The initiation step: on failure of the scalar multiplication only secrets of the pending handshake change |
| SessionPeer.Peer.AnswerInitiation | examples/basic/components/esp_wireguard/src/wireguardif.c:420-440 | The response step, starting a session in the responder role |
| SessionPeer.Peer.ProcessResponseMessage | examples/basic/components/esp_wireguard/src/wireguardif.c:229-243 | Does nothing unless a pending initiator handshake has the receiver index and the message is genuine; otherwise starts the session and sends a keepalive |
| SessionPeer.Peer.Timer | examples/basic/components/esp_wireguard/src/wireguardif.c:898-943 | One tick is: reset, destroy, keepalive, initiation, in this order, with the conditions of the predicates; the invariant of the object is kept |
| SessionLaws.ReapExactly | examples/basic/components/esp_wireguard/src/wireguardif.c:878-913 | What the timer destroys: everything at 540 000 ms, the current keypair at 180 000 ms or with its counters used up |
| SessionLaws.KeepaliveExactly | examples/basic/components/esp_wireguard/src/wireguardif.c:867-876 | When the timer sends a keepalive, in milliseconds |
| SessionLaws.InitiationExactly | examples/basic/components/esp_wireguard/src/wireguardif.c:853-865 | When the timer initiates: 5 000 ms after the last recorded initiation, and on request, or with an old enough session of the peer, or without a session |
| SessionLaws.TickExactly | examples/basic/components/esp_wireguard/src/wireguardif.c:900-931 | The order of the tick, and what an attempt to initiate changes, whether it fails or not |
| SessionPeer.Peer.ConnectPeer | examples/basic/components/esp_wireguard/src/wireguardif.c:683-699 | The peer becomes active and nothing else changes |
| SessionPeer.Peer.DisconnectPeer | examples/basic/components/esp_wireguard/src/wireguardif.c:701-714 | All three keypairs are destroyed and the peer becomes inactive |
| SessionLaws.OtherwiseNothing | examples/basic/components/esp_wireguard/src/wireguardif.c:588-602 | A response that is not genuine or not for the pending handshake, and a packet for no slot, change nothing |
| SessionRuns.StepKnown | examples/basic/components/esp_wireguard/src/wireguardif.c:103-380 | Every event keeps the start times of all sessions and the set of sessions in which the peer was heard, and sends and admits only as the next row says |
| SessionRuns.YoungAndConfirmed | examples/basic/components/esp_wireguard/src/wireguardif.c:113-124 | Over every run from a fresh peer: whatever a step sends goes out under a session less than 180 s old by the clock reading of that step, which this end initiated or has heard its peer in before; whatever it admits belongs to a session less than 180 s old |
| SessionLaws.DisconnectExactly | examples/basic/components/esp_wireguard/src/wireguardif.c:701-714 | Disconnecting gives up all sessions and keeps the pending handshake |
| SessionLaws.UniqueExactly | examples/basic/components/esp_wireguard/src/wireguard.c:396-421 | A new index is neither reserved nor one of the four in use |
| Messages.GetMessageType | examples/basic/components/esp_wireguard/src/wireguard.c:537-568 | The nested tests compute the classification |
| Messages.WireTypes | examples/basic/components/esp_wireguard/src/wireguard.c:537-568 | Every well-formed message of each of the four kinds is classified as its kind |
| Messages.TypesExactly | examples/basic/components/esp_wireguard/src/wireguard.c:537-568 | A datagram is of a type if and only if its first four bytes and its length are those of the type |
| Messages.TransportFields | examples/basic/components/esp_wireguard/src/wireguardif.c:145-153 | Receiver index, counter and box are read back from the wire as written |
| Messages.InitiationFields | examples/basic/components/esp_wireguard/src/wireguardif.c:572-574 | A packed initiation is 148 bytes and reads back field by field |
| Messages.ResponseFields | examples/basic/components/esp_wireguard/src/wireguardif.c:589-591 | A packed response is 92 bytes and reads back field by field |
| Messages.CookieReplyFields | examples/basic/components/esp_wireguard/src/wireguardif.c:604-606 | A packed cookie reply is 64 bytes and reads back field by field |
| Messages.Layouts | examples/basic/components/esp_wireguard/src/wireguard.h:208-247 | The offset of every field in the four packed structures |
| Noise.InitPairs | examples/basic/components/esp_wireguard/src/wireguard.c:970-1021 | Two devices initialised with any private keys, each with the other as its peer and one optional pre-shared key, are configured for each other: public keys, precomputed product and label keys agree |
| Noise.HypothesesMeet | examples/basic/components/esp_wireguard/src/crypto.h:21-22 | The two hypotheses about the scalar multiplication, that it commutes and clamps its scalar itself, can be met together |
| Noise.AddPairs | examples/basic/components/esp_wireguard/src/wireguard.c:970-1023 | Under that operation any two non-zero private keys make a pair of configured ends: initialisation fails for neither |
| NoiseReference.CreateIsNoise | examples/basic/components/esp_wireguard/src/wireguard.c:782-847 | The initiation and the pending hash and chaining key are those of writing the message e, es, s, ss with the timestamp in the pattern IKpsk2, token by token, in the symmetric state of the Noise specification |
| NoiseReference.ProcessIsNoise | examples/basic/components/esp_wireguard/src/wireguard.c:570-672 | An initiation is processed as that message is read: accepted exactly if the product is not zero, it can be read and its static key is the peer's; timestamp, hash and chaining key are those of reading it |
| NoiseReference.AnswerIsNoise | examples/basic/components/esp_wireguard/src/wireguard.c:871-935 | The response, its hash and chaining key are those of writing e, ee, se, psk with an empty payload, psk being the pre-shared key of the peer |
| NoiseReference.FinishIsNoise | examples/basic/components/esp_wireguard/src/wireguard.c:674-757 | A response is processed as that message is read: it completes the pending handshake exactly if no product is zero and it can be read |
| NoiseReference.DeviceKeys | examples/basic/components/esp_wireguard/src/wireguard.c:1004-1023 | When initialisation succeeds, which three bits of the private key it changes, and the label keys, with the labels as bytes |
| NoiseReference.PeerKeys | examples/basic/components/esp_wireguard/src/wireguard.c:970-1002 | When a peer can be initialised, and its precomputed product and label keys |
| Noise.InitiationAgrees | examples/basic/components/esp_wireguard/src/wireguard.c:570-672 | With commuting scalar multiplication and ends configured for each other, whatever the initiator creates the responder decrypts: same timestamp, same hash, same chaining key |
| Noise.ResponseAgrees | examples/basic/components/esp_wireguard/src/wireguard.c:674-759 | Whatever the responder answers, the initiator accepts, ending in the same chaining key with mirrored indices |
| Noise.HandshakeAgreement | examples/basic/components/esp_wireguard/src/wireguard.c:496-535 | All four handshake functions succeed on unaltered messages and the two keypairs mirror each other: each sending key and local index is the other's receiving key and remote index |
| Noise.Mac1Accepted | examples/basic/components/esp_wireguard/src/wireguard.c:442-450 | The first MAC that the paired sender computes is the one the receiver checks against |
| NoisePeer.MixAndSeal | examples/basic/components/esp_wireguard/src/wireguard.c:820-830 | The KDF, encryption and hash steps in shared buffers are the transcript functions of the old buffers |
| NoisePeer.MixAndOpen | examples/basic/components/esp_wireguard/src/wireguard.c:609-616 | The same on the receiving end; the hash is mixed only if the box opens |
| NoisePeer.MixPresharedKey | examples/basic/components/esp_wireguard/src/wireguard.c:717-721 | The three-output KDF step in the buffer of the chaining key |
| NoisePeer.HandshakeState.CreateInitiation | examples/basic/components/esp_wireguard/src/wireguard.c:782-850 | The steps in place compute the transcript of section 5.4.2 of the WireGuard paper; a failure leaves role, indices and validity of the pending handshake alone |
| NoisePeer.HandshakeState.ProcessInitiation | examples/basic/components/esp_wireguard/src/wireguard.c:570-672 | Succeeds exactly if everything decrypts, the sender is the configured peer, the timestamp is greater than all accepted before and the rate test passes; then handshake, timestamp and time are updated, otherwise nothing changes |
| NoisePeer.HandshakeState.CreateResponse | examples/basic/components/esp_wireguard/src/wireguard.c:871-935 | The steps in place compute the transcript of section 5.4.3; a failure leaves role, indices and validity alone |
| NoisePeer.HandshakeState.ProcessResponse | examples/basic/components/esp_wireguard/src/wireguard.c:674-759 | Succeeds exactly if the response is authentic for the pending handshake; otherwise nothing changes |
| Transport.PaddedPayload | examples/basic/components/esp_wireguard/src/wireguardif.c:127-161 | A payload is followed by fewer than 16 zero bytes up to a multiple of 16 |
| Transport.OutputRecord | examples/basic/components/esp_wireguard/src/wireguardif.c:145-164 | A transmitted packet is sealed under the sending slot's key and its counter before the increment, for the remote index |
| Transport.PacketBytes | examples/basic/components/esp_wireguard/src/wireguardif.c:141-165 | A transport packet as bytes: type, receiver, counter, and the reference encryption of the padded payload under the key and counter of the record without associated data |
| Transport.MirrorDecrypts | examples/basic/components/esp_wireguard/src/wireguardif.c:287-306 | A packet sealed under a keypair is classified as transport data, selects exactly the slot of the mirror keypair and decrypts to the plaintext |
| Transport.TransportRoundTrip | examples/basic/components/esp_wireguard/src/wireguardif.c:103-197 | For every payload, whatever is transmitted from a mirrored slot reaches the mirror slot with its counter and decrypts to the padded payload |
| Transport.KeepalivePromotes | examples/basic/components/esp_wireguard/src/wireguardif.c:224-243 | Delivering the initiator's keepalive moves the responder's next keypair to current, after which both current keypairs mirror each other |
| Transport.SessionsMirror | examples/basic/components/esp_wireguard/src/wireguard.c:480-535 | After both session starts the initiator's current slot mirrors the responder's next slot |
| Tunnel.RespondStores | examples/basic/components/esp_wireguard/src/wireguardif.c:420-440 | The responder's session step, fed with the computed handshake, is the start of a session from it |
| Tunnel.CompleteStores | examples/basic/components/esp_wireguard/src/wireguardif.c:229-243 | The initiator's session step, fed with the finished handshake, is the start of a session and a keepalive |
| Tunnel.ExchangeConnects | examples/basic/components/esp_wireguard/src/wireguardif.c:634-658 | The exchange of messages over session states, from any prior sessions: an initiation that is new and not rate limited, its response and the automatic keepalive leave both ends with mirrored current keypairs |
| Tunnel.ReplyExactly | examples/basic/components/esp_wireguard/src/wireguardif.c:113-120 | The reply direction: the responder's next packet uses the new session, and then reaches the initiator's current slot, if and only if the keepalive was heard at a tick other than zero |
| Datagrams.InitiationArrives | examples/basic/components/esp_wireguard/src/wireguardif.c:556-587 | A signed initiation, as bytes, passes the type dispatch, reads back and passes the first MAC check, and has exactly the effect of its message |
| Datagrams.ResponseArrives | examples/basic/components/esp_wireguard/src/wireguardif.c:588-602 | The same for a signed response; a datagram goes out exactly if a keepalive was encrypted |
| Datagrams.UnsignedIgnored | examples/basic/components/esp_wireguard/src/wireguardif.c:556-632 | A handshake message whose first MAC is wrong and a datagram of no type change nothing and cause nothing |
| Datagrams.StaleIgnored | examples/basic/components/esp_wireguard/src/wireguard.c:632-650 | An initiation that is not authentic, stale or too early changes nothing and is not answered |
| Datagrams.TunnelEstablished | examples/basic/components/esp_wireguard/src/wireguardif.c:556-632 | The whole exchange as three datagrams, delivered unaltered, from any prior sessions and cookies: the initiation is answered, the response causes a keepalive, and afterwards both current keypairs mirror each other and the responder's old keypair is in its previous slot |
| Datagrams.DatagramsSent | examples/basic/components/esp_wireguard/src/wireguardif.c:394-440 | The initiation is sent, and answered, exactly when there is memory and no scalar multiplication of the side about to send yields zero |
| Datagrams.NetworkRxSlots | examples/basic/components/esp_wireguard/src/wireguardif.c:556-632 | Every datagram of any type and contents keeps the slot invariant |
| Datagrams.ReplyAfterExchange | examples/basic/components/esp_wireguard/src/wireguardif.c:113-120 | The exchange and the reply together: after any three datagrams delivered unaltered, the next packet of the responder goes out under the new session and reaches the current keypair of the initiator if the keepalive was heard at a tick other than zero; heard at tick zero it goes out under the session that was current before, with its key, counter and index, or not at all if that cannot be used |
| Datagrams.FallsBack | examples/basic/components/esp_wireguard/src/wireguardif.c:113-120 | Such replies under the old session exist: with an operation that meets all hypotheses every exchange succeeds, and the reply to a keepalive heard at tick zero goes out under the old session whenever that session could be used |
| Tunnel.ExchangeSucceeds | examples/basic/components/esp_wireguard/src/wireguard.c:433-440 | The initiation is sent, and answered, exactly when no scalar multiplication of the side about to send yields zero |
| Joint.ActIsStep | examples/basic/components/esp_wireguard/src/wireguardif.c:556-632 | Every step of an end in a joint run, with the messages that the other end really made, is a possible event of the session machine |
| Joint.EndsRun | examples/basic/components/esp_wireguard/src/wireguardif.c:556-632 | Each end of a joint run makes a possible run of the session machine, so the theorems about all runs of one peer hold for both |
| Joint.JointNonces | examples/basic/components/esp_wireguard/src/wireguardif.c:103-197 | In particular neither end of a joint run reuses a nonce |
| JointSafety.AnswerFits | examples/basic/components/esp_wireguard/src/wireguard.c:570-672 | The initiation of one end is understood by the other in any state of its handshake record, and whatever answer is made completes it with the mirror image of the session |
| JointSafety.RepliedKeeps | examples/basic/components/esp_wireguard/src/wireguard.c:628-650 | Hearing any initiation that the other end ever made, however late or often, keeps the joint invariant; the timestamp test is what leaves each initiation with at most one answer |
| JointSafety.CompletedKeeps | examples/basic/components/esp_wireguard/src/wireguardif.c:229-243 | Hearing any response that the other end ever made keeps the joint invariant: it does nothing unless it answers the pending handshake, and then starts the mirror image of the answered session |
| JointSafety.ActKeeps | examples/basic/components/esp_wireguard/src/wireguardif.c:556-632 | Every step of one end keeps the joint invariant of both |
| JointSafety.OneSession | examples/basic/components/esp_wireguard/src/wireguard.c:396-421 | No two sessions that the two ends agreed on have the same index |
| JointSafety.MatchingSlotsMirror | examples/basic/components/esp_wireguard/src/wireguardif.c:385-394 | In every state that two configured ends can reach over a network that loses, repeats, reorders and forges packets: keypairs of the two whose indices match, in any slots and in either direction, mirror each other in keys, indices and roles |
| JointSafety.PacketsOpen | examples/basic/components/esp_wireguard/src/wireguardif.c:287-306 | In every such state, every packet that one end ever sent, delivered now, finds no keypair at the other or opens to exactly what was sent |
| JointSafety.MeetingMatches | examples/basic/components/esp_wireguard/src/wireguardif.c:853-865 | Such states with matching keypairs are reached from any two peers that have not met: one connects, its timer initiates, the other answers and the answer comes back |
| JointDelivery.DeliveredWasSent | examples/basic/components/esp_wireguard/src/wireguardif.c:287-380 | End to end, while packets are lost, repeated and reordered but not forged: every payload that passes the replay check was sent by the other end, with that counter, under the mirror image of the session that admits it |
| JointDelivery.DeliveredOnce | examples/basic/components/esp_wireguard/src/wireguardif.c:320-380 | ... and while no distance is harmful no packet reaches the IP layer twice through sessions that the receiver initiated, over all its sessions together |
| JointDelivery.FewDeliveredOnce | examples/basic/components/esp_wireguard/src/wireguardif.c:320-380 | ... in particular whenever the sender used no session for 2^32 - 1 packets or more |
| Timestamps.MemcmpOrders | examples/basic/components/esp_wireguard/src/wireguard.c:632-632 | Bytewise comparison of equal-length strings orders them as big-endian numbers |
| Timestamps.Tai64nNow | examples/basic/components/esp_wireguard/src/wireguard-platform.c:145-157 | The byte stores write the 12 bytes of the big-endian timestamp |
| Timestamps.Tai64nMonotone | examples/basic/components/esp_wireguard/src/wireguard-platform.c:145-157 | Of two times of day, the timestamp of one compares below the other exactly if it is earlier in (seconds, microseconds) |
| Timestamps.Tai64nNumbers | examples/basic/components/esp_wireguard/src/wireguard-platform.c:145-160 | The first eight bytes are 2^62 + 10 plus the seconds, the last four the nanoseconds, big-endian |
| Timestamps.AcceptedIncrease | examples/basic/components/esp_wireguard/src/wireguard.c:629-642 | Over any run of initiations from one peer the accepted timestamps strictly increase, so none is accepted twice |
| Timestamps.AcceptsExactly | examples/basic/components/esp_wireguard/src/wireguard.c:631-641 | An initiation is accepted exactly if its timestamp is greater than all accepted ones and the reversed clock difference is at least 500 ms |
| Timestamps.LastInitiation | examples/basic/components/esp_wireguard/src/wireguardif.c:634-658 | Only a timer tick that sends an initiation changes the recorded time, to its clock |
| Timestamps.ExpiredInRealTime | examples/basic/components/esp_wireguard/src/wireguard.c:179-182 | 32-bit expiry is never early in real time, across any number of wrap-arounds |
| Timestamps.InitiationsApart | examples/basic/components/esp_wireguard/src/wireguardif.c:853-865 | Over every run, two initiations sent by the timer are at least 5 s of real time apart if the first is recorded at a clock other than zero |
| Timestamps.PauseExactly | examples/basic/components/esp_wireguard/src/wireguardif.c:88-90 | For a peer waiting for its first session, every next initiation that is possible, in particular with an index that the generator may draw, respects the 5 s if and only if the last one was not recorded at clock zero |
| Timestamps.TwoAtOnce | examples/basic/components/esp_wireguard/src/wireguardif.c:88-90 | Witness from a fresh peer: connected at a moment when the clock reads zero, it sends two initiations, with different indices, at that same moment |
| Cookies.Responder.GeneratePeerCookie | examples/basic/components/esp_wireguard/src/wireguard.c:190-206 | Renews a secret of 120 s, then the cookie is the MAC of the address under the current secret |
| Cookies.Responder.CheckMac2 | examples/basic/components/esp_wireguard/src/wireguard.c:452-464 | True exactly if the second MAC is the MAC of the data under the cookie of the address |
| Cookies.Responder.CreateCookieReply | examples/basic/components/esp_wireguard/src/wireguard.c:960-968 | The reply seals the cookie of the address for the first MAC it answers |
| Cookies.Responder.CheckInitiation | examples/basic/components/esp_wireguard/src/wireguardif.c:491-521 | Under load an initiation passes exactly with both MACs right, and a cookie reply is sent exactly for a right first and a wrong second MAC |
| Cookies.Initiator.AddMacs | examples/basic/components/esp_wireguard/src/wireguard.c:852-864 | The MACs of section 5.4.4: the second one is zero unless a cookie is at hand |
| Cookies.Initiator.ProcessCookieMessage | examples/basic/components/esp_wireguard/src/wireguard.c:761-780 | A reply is used once per recorded first MAC and only if it opens under it; otherwise nothing changes |
| Cookies.Initiator.RecordMac1 | examples/basic/components/esp_wireguard/src/wireguardif.c:653-655 | The first MAC of the initiation just sent is kept for a reply, and nothing else changes |
| Cookies.WirePrefixes | examples/basic/components/esp_wireguard/src/wireguardif.c:498-507 | The two MACs cover exactly the message up to themselves |
| Cookies.AgesExactly | examples/basic/components/esp_wireguard/src/wireguard.c:193-196 | A secret and a cookie last 120 000 ms |
| Cookies.ReplyBytes | examples/basic/components/esp_wireguard/src/wireguard.c:958-968 | The reply seals Hash(16, secret, address) for the first MAC with the reference encryption under HASH("cookie--", responder's public key) |
| Cookies.MacBytes | examples/basic/components/esp_wireguard/src/wireguard.c:850-863 | The first MAC is the keyed hash of the 116 bytes before it under HASH("mac1----", responder's public key), the second of the 132 bytes before it under the cookie, or zero |
| Cookies.ResponseMacBytes | examples/basic/components/esp_wireguard/src/wireguard.c:938-951 | The same for a response, over 60 and 76 bytes |
| Cookies.AdmitsExactly | examples/basic/components/esp_wireguard/src/wireguard.c:442-465 | What a responder demands, as equations on the bytes of the message |
| Cookies.SecretKept | examples/basic/components/esp_wireguard/src/wireguard.c:193-196 | The secret stays the same over any run of cookie computations that never finds it 120 s old |
| Cookies.ReplyStored | examples/basic/components/esp_wireguard/src/wireguard.c:761-780 | A reply to an initiation decrypts at its sender to the responder's cookie for the source address |
| Cookies.Verdict | examples/basic/components/esp_wireguard/src/wireguard.c:452-464 | For every jar and secret, the exact condition under which the next initiation passes a responder under load |
| Cookies.CookieRoundTrip | examples/basic/components/esp_wireguard/src/wireguard.c:849-864 | After an initiation and its cookie reply the next initiation passes both MAC checks, if the cookie was stored at a non-zero tick and is under 120 s old and the secret has not rolled over |
| Cookies.CookieUnused | examples/basic/components/esp_wireguard/src/wireguard.c:857-859 | A cookie stored at tick zero, or 120 s old, is not used: the second MAC is zero and passes only if the computed MAC is zero |
| Base64.Encode | examples/basic/components/esp_wireguard/src/wireguard.c:1105-1139 | Writes the padded encoding and a terminating zero exactly if the buffer has room for both, and leaves the rest of the buffer alone |
| Base64.Decode | examples/basic/components/esp_wireguard/src/wireguard.c:1032-1103 | For every string and room, succeeds exactly on the accepted strings that fit, with the bytes they stand for at the start of the buffer and the rest of the buffer as it was; writes beyond the room exactly for the strings that overrun |
| Base64.OverrunExactly | examples/basic/components/esp_wireguard/src/wireguard.c:1080-1092 | The loop writes beyond the room it was given if and only if the room is a multiple of three, the string continues for four more characters after the groups that fill it, all characters up to the first of those four are of the alphabet, and the other three are padding |
| Base64.RoomSuffices | examples/basic/components/esp_wireguard/src/wireguardif.c:803-807 | A room that is not a multiple of three, like the 32 bytes that both callers give (here and at lines 1004-1011), is never overrun |
| Base64.AcceptedFits | examples/basic/components/esp_wireguard/src/wireguard.c:1081-1092 | An accepted string yields at most as many bytes as there is room, if and only if it does not end in such a group with the room used up |
| Base64.OneByteTooMany | examples/basic/components/esp_wireguard/src/wireguard.c:1081-1086 | Witness: "A===" is accepted with no room at all and yields one byte; no caller gives a room of zero |
| Base64.RunDecodes | examples/basic/components/esp_wireguard/src/wireguard.c:1054-1098 | The character loop, started after any output, has the verdict and output of the group-wise definition |
| Base64.DecodeEncode | examples/basic/components/esp_wireguard/src/wireguard.c:1032-1139 | Decoding the encoding of any byte string returns it and needs exactly its length of room |
| Base64.EncodeDecode | examples/basic/components/esp_wireguard/src/wireguard.c:1032-1139 | The exact condition for the other direction: an accepted string is the encoding of what it stands for if and only if its last group has at most two padding characters and zero spare bits |
| Base64.WholeGroups | examples/basic/components/esp_wireguard/src/wireguard.c:1054-1098 | Every string of whole groups over the alphabet is accepted, and encoding the result returns it |
| Base64.NotCanonical | examples/basic/components/esp_wireguard/src/wireguard.c:1054-1098 | Witnesses: "AB==" and "A===" are accepted for the zero byte, as "AA==" is |
| Base64.SextetIs | examples/basic/components/esp_wireguard/src/wireguard.c:1048-1062 | A character is accepted exactly if it is of the alphabet of RFC 4648, and stands for its position in it |
| Base64.GroupBits | examples/basic/components/esp_wireguard/src/wireguard.c:1113-1135 | Three bytes and four characters are the same 24 bits, most significant first, with the low bits cleared where bytes are missing |
| Base64.EncodedConcat | examples/basic/components/esp_wireguard/src/wireguard.c:1105-1139 | Groups are encoded one after the other |
| Reassembly.Receiver.HandleTextFrame | src/newt_ws.c:149-184 | The update in place of buffer, length, capacity and queue is the specified step, and the length stays below the capacity and the capacity at most 65536 |
| Reassembly.HandleExactly | src/newt_ws.c:150-184 | The exact effect of every fragment on assembly and queue, with every refusal of memory or of a place |
| Reassembly.ReceivedSoFar | src/newt_ws.c:149-184 | After any of the in-order chunks exactly what has come so far is in the assembly, or has been enqueued once |
| Reassembly.PayloadReassembled | src/newt_ws.c:135-184 | From any prior state, the in-order chunks of a payload of at most 65536 bytes, possibly empty, cause exactly one message to be enqueued: their concatenation |
| Reassembly.OversizeDropped | src/newt_ws.c:150-159 | A longer payload that comes in pieces causes no message and leaves no assembly behind |

## Left out

- X25519, the random generator, lwIP, UDP, pbuf pools, DNS, netif and FreeRTOS: foreign code; they appear as parameters, inputs or recorded outputs.
- Several peers on one device: lookups by public key, allowed IP or index over the peer table, and index uniqueness across peers; the model is the default build with one peer, in which the search loops have one candidate.
- SessionPeer.Peer.GenerateUniqueIndex: the search has no termination measure, so it is modelled as choosing a value that satisfies its exit test.
- Timestamps.Accepts: no bound on the rate of accepted initiations is claimed; the reversed difference does not give one.
- SessionReplay.PayloadsAdmittedOnce: sessions in which a packet meets a harmful distance, which needs a counter 2^32 or more away; what happens then is stated for windows (Replay.CheckExact, Replay.RunExact), not for sessions.
- Aead.OpenSealExactly: texts whose box is 2^32 bytes or longer, which no 32-bit length describes.
- Cookies.CookieRoundTrip: the reverse direction is stated up to collisions of the MAC (Cookies.Verdict, Cookies.CookieUnused), which no model excludes.
- Cookies.Responder.CheckInitiation: the load predicate is an input; the platform file always answers that there is no load, which is the case in Datagrams.NetworkRx. The identical check of responses under load is not repeated.
- Datagrams.NetworkRx: cookie replies, which do not touch the session state; Cookies has them.
- Noise.Create and Noise.Answer: a handshake attempt that fails leaves unspecified secrets in the pending handshake; only its identity is said to be unchanged.
- Noise.Process: the configured peer stands for the lookup by public key.
- Noise.InitPairs: the fields of device and peer that initialisation zeroes; `SessionPeer.Peer`, `NoisePeer.HandshakeState` and `Cookies` have them.
- Fields that no decision depends on: `sending_valid`, the endpoint addresses and the link state of the `netif`.
- Inner IP header checks and IPv6: their verdict is the input `destOk`; it decides only whether a receipt is delivered.
- SessionPeer.Peer.ProcessDataMessage: the payload and its decryption verdict are inputs here; Transport.Receive supplies the real ones.
- NoisePeer.HandshakeState: message buffers are values, filled at the end instead of field by field; the hash and key buffers are arrays updated in place.
- Base64.Decode: the bytes after the caller's room are part of the buffer here; for a string that overruns, one more is required to exist, where C writes into whatever follows.
- Base64.Encode: input lengths at which `int` offsets overflow.
- Kdf.HmacInto and the block loops: secrets on the stack are wiped in C; wiping and constant-time behaviour are not modelled, except that Poly1305Donna.Poly1305State.Finish zeroes its state.
- Poly1305Donna and ChaCha20: masks and shifts by constants are written as remainders and quotients; masks with gaps, `|` and `^` are modelled bit by bit.
- Reassembly: allocation and queue results are inputs of the step; the theorem about whole payloads takes them as successful. JSON parsing, the worker task, reconnection and back-off are not modelled.
- JointSafety.MatchingSlotsMirror and the other theorems about two ends: each end is supposed never to draw an index again that it has used before (the generator excludes the live ones only), and no scalar multiplication for an initiation to yield zero; a failing one overwrites the secrets of a pending handshake. Messages that found no memory count as made, so the network may deliver them too. Handshake messages are those that the two ends made, before their MACs, which do not change their effect (Datagrams.InitiationArrives, Datagrams.ResponseArrives); forged ones are rejected by cryptography that no model without computational bounds excludes.
- JointDelivery.DeliveredOnce: sessions that the receiver answered, in which the promoting packet may be delivered twice (SessionReplay.PromotingPacketTwice).
- Peer addition and removal, endpoint updates, secrecy and timing properties, `src/newt.c`, `src/newt_wg.c`, `src/newt_ping.c`, `src/newt_proto.c`, `src/newt_auth.c` and the demo: administration and glue around the protocol, which change none of the state that the theorems are about while a tunnel runs; secrecy and timing are not properties of single runs.
