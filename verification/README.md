# A verified model of the onesdk client core

This Dafny project models the parts of onesdk in which an error would be hardest to see, and proves
what they promise. Five groups of modules, each independent of the others:

- **AES and CBC** (`Aes*.dfy`). The field GF(2^8) and the S-box of FIPS 197 are defined by their
  mathematics; the run-time table generator is proved to fill its tables with them. On top of that come
  the key schedules, the table-driven block cipher with its equivalent inverse cipher, CBC over one or
  two buffers, the zero-padding wrapper, and the decode-and-trim consumer. `AesSboxTable.dfy`,
  `AesKnown.dfy` and `AesKnownKeys.dfy` work out the examples of FIPS 197: the S-box of Figure 7, the
  key expansions of all three lengths, and the cipher of appendix C.1.
- **Incremental hashes** (`BlockHash.dfy`, `Sha256*.dfy`, `Hmac.dfy`, `Md5*.dfy`). One absorption
  argument over an abstract compression function serves both hashes. `*Spec.dfy` follow FIPS 180-4 and
  RFC 1321; `*Impl.dfy` are the buffering contexts of the source, proved to compute the one-shot hash of
  the concatenated chunks. HMAC follows section 2 of RFC 2104. `Sha256Constants.dfy` says where the
  constants come from; `Sha256Known.dfy` and `Md5Known.dfy` work out the standards' example "abc", so
  that a mistake which specification and implementation shared would show.
- **MQTT client** (`MqttPub.dfy`, `MqttOrder.dfy`, `MqttDrain.dfy`, `MqttSub.dfy`, `Mqtt.dfy`,
  `MqttRun.dfy`, `MqttClient.dfy`). Publish and subscription queues as functions of API calls and
  callbacks, with logs of what was accepted, sent and freed; invariants over every sequence of events;
  what a working connection makes of the state any run left: every subscription and every message goes
  out; and a class with the loops and in-place moves of the callback, proved to do those steps.
- **Stream framing and text** (`Framing.dfy`, `Sse*.dfy`, `RtReceive.dfy`, `Headers.dfy`). Cutting frames
  off a buffer fed in chunks, in general, with the exact condition under which the chunks do not matter;
  then the event-stream buffer and parser, the realtime message buffer, and the pair of header printer
  and in-place header splitter.
- **WebSocket send ring and multi-region allocation** (`WsRing.dfy`, `AcquireMany.dfy`).

A class models a context the source updates in place; each of its methods is proved against a function,
and what the source promises is proved about that function. Bytes are `bv8` and words `bv32` in the
ciphers and hashes. In the text modules a `char` stands for one byte. `dafny verify dfyconfig.toml`
checks everything.

## Where the code differs from its promises

- The zero padding of `utils_aes_cbc` is written to the output buffer while CBC reads the input buffer:
  it reaches the ciphertext exactly when the call is in place or the input happens to continue with
  zeros (`AesDecode.ZeroPaddingReached`). The bytes read after the data must exist, and decryption does
  not look at the output size at all: `AesDecode.AesCbcCall` says exactly when a call leaves its buffers.
- `utils_md5_update` takes a `size_t` but counts its low 32 bits: a right bit count stays right exactly
  when the update is shorter than 2^32 bytes (`Md5Impl.Md5Context.Update`), and `utils_md5` pads as RFC 1321
  does exactly when the size modulo 2^61 fits 32 bits (`Md5Impl.Md5CallIsMd5`).
- `Sha256Update` takes a 32-bit size: `onesdk_hmac_sha256` hashes the bytes RFC 2104 says exactly when the
  sizes fit (`Hmac.CodeIsHmac`); `Hmac.HmacSha256` states what it computes for all lengths.
- A reconnect while a PUBACK is due leaves its QoS 1 message sent and unawaited. The number of
  unacknowledged messages is then one more for each such reconnect, so that a place in the list is lost
  for good (`Mqtt.RunSafe`); and the next ACK takes out the message in flight exactly when no such
  message stands before it (`MqttPub.AckMatches`, `Mqtt.OrphanIsAcked`).
- The publish queue freezes, and no call or callback changes it again, exactly when no PUBACK is due and
  it holds eleven messages none of which the loop sends (`MqttPub.FrozenExactly`, `Mqtt.FrozenStays`).
  Eleven waits lost to reconnects do that (`MqttPub.OrphansFill`), and so do eleven messages that are
  neither QoS 0 nor QoS 1, which are accepted but never sent (`Mqtt.OtherQosFills`, `Mqtt.RunWires`).
- A send that fails is skipped, QoS 0 or QoS 1, and the loop goes on. The wire order stays a prefix of the
  order of acceptance exactly when no WRITEABLE sends a message after one that failed
  (`MqttOrder.WriteableOrder`, `Mqtt.RunOrderExactly`); `Mqtt.FailedSendReorders` and
  `Mqtt.FailedQos1Reorders` are two runs where one does.
- The event-stream cutter looks for CR LF CR LF in the whole buffer before it looks for LF LF. The blocks
  delivered are independent of the chunks exactly when no block of the whole stream that ends in
  CR LF CR LF contains LF LF (`SseFraming.SseChunks`, `SseFraming.MixedStream`).
- A read that does not fit the event buffer is cut short. A rendered stream arrives complete exactly when
  no read overflows (`SseStream.StreamDelivered`), and a buffer without a delimiter delivers nothing any
  more exactly when the room left is less than what completes one (`SseBuffer.StuckExactly`).
- `parse_sse_message` leaves its buffers on a blank value and on a key over 127 bytes; the model stops
  there, at exactly those blocks (`SseParse.ParseSseMessage`).
- The overflow guard of `rt_recv_cb` tests the sum of sizes and not its double: it never acts on sizes an
  object can have, and does not stop a doubled size from wrapping around (`RtReceive.GuardIsDead`). A chunk
  is taken exactly when it fits or twice what is needed is a `size_t` (`RtReceive.TakenExactly`).
- The reconnect count of the WebSocket client is one for all contexts. Between two ESTABLISHED events of a
  context, with m of other contexts in between, the least bound on its connects after errors is 3 * (m + 1)
  (`WsRing.ContextBoundExactly`); so it is 3 exactly when no other context has one there
  (`WsRing.ThreeExactly`). `WsRing.OtherContextResets` is the run with two contexts and six connects.
- `aigw_ws_send_request` reports success also for a message it drops, which it does exactly when the ring is
  full (`WsRing.WsContext.SendRequest`).
- The header splitter consumes the string it splits. When a request is sent again it carries no custom
  header, and one added in between is sent under the name of the very first header and its own run
  together (`Headers.SplitInPlace`, `Headers.SendTwice`).
- When no continuation of the realtime buffer starts with a message, nothing is dispatched any more and the
  buffer only grows (`Framing.DeadEndExactly`, `RtReceive.NeverAgain`).
- `AWS_ALIGN_ROUND_UP` is below its argument exactly when adding 7 wraps around
  (`AcquireMany.RoundUpIsLeast`), and the regions are as long as asked exactly when nothing wraps
  (`AcquireMany.RegionsHoldExactly`).

## Model

| member | source | states |
|---|---|---|
| `AesField.LogExists` | src/util/aes.c:354-361 | Every nonzero byte is a power of 3, so the log table covers all of them. |
| `AesField.PowersDistinct` | src/util/aes.c:354-361 | The 255 powers of 3 are pairwise distinct, so no log entry is overwritten but that of 1. |
| `AesField.PowerSum` | src/util/aes.c:344 | A sum of exponents is a product in GF(2^8), for multiplication defined bit by bit as in section 4.2 of FIPS 197. |
| `AesField.MulAssociates` | src/util/aes.c:344 | Multiplication in GF(2^8) is associative. |
| `AesField.MulDistributes` | src/util/aes.c:344 | Multiplication distributes over addition in both arguments, so it is linear in the state bytes. |
| `AesSbox.Inverse` | src/util/aes.c:374-378 | The multiplicative inverse that the S-box of section 5.1.1 of FIPS 197 is built from, with 0 for 0. |
| `AesSbox.InverseOfPower` | src/util/aes.c:377-378 | The generator's pow[255 - log[i]] is that inverse. |
| `AesSbox.AffineByRotations` | src/util/aes.c:380-388 | The rotate-and-xor chain is the affine map of section 5.1.1, defined bit by bit. |
| `AesSbox.SBoxPermutes` | src/util/aes.c:374-392 | The reverse S-box inverts the S-box, both ways. |
| `AesTables.LogMul` | src/util/aes.c:344 | The MUL macro on the log tables is multiplication in GF(2^8), zero operands included. |
| `AesTables.Tables.GenLogs` | src/util/aes.c:354-361 | The first loop fills pow with the powers of 3 and log with their exponents. |
| `AesTables.Tables.GenRcon` | src/util/aes.c:366-369 | The round constants are the powers of 2 in GF(2^8). |
| `AesTables.RconSum` | src/util/aes.c:366-369 | The product of two round constants is the one at the sum of their indices, so they are the powers of one element. |
| `AesTables.RconValues` | src/util/aes.c:366-369 | The ten round constants are {01}, {02}, {04}, .. {80}, {1b}, {36}. |
| `AesTables.Tables.GenSBoxes` | src/util/aes.c:374-392 | FSb and RSb hold the S-box and its inverse at every index. |
| `AesTables.Tables.GenRounds` | src/util/aes.c:397-420 | Every entry of FT0..FT3 is the MixColumns contribution of a substituted byte, every entry of RT0..RT3 the InvMixColumns contribution of an inversely substituted one, rotated by the table's number. |
| `AesTables.Tables.EnsureGenerated` | src/util/aes.c:498-505 | After the guard the tables are the right ones, and a second call changes nothing. |
| `AesMix.MixInverse` | src/util/aes.c:397-420 | The coefficients of InvMixColumns undo those of MixColumns on every column, both ways. |
| `AesMix.CirculantLinear` | src/util/aes.c:569-612 | A column transformation is linear, which lets the decryption schedule be transformed in place of the state. |
| `AesLookup.ForwardSumIs` | src/util/aes.c:616-630 | The four forward lookups of one output word are SubBytes, ShiftRows and MixColumns of FIPS 197 for that column. |
| `AesLookup.ReverseSumIs` | src/util/aes.c:632-646 | The four reverse lookups are InvShiftRows, InvSubBytes and InvMixColumns for that column. |
| `AesLookup.InvMixWordIs` | src/util/aes.c:596-601 | RT0[FSb[b0]] and its three companions are InvMixColumns of the key column. |
| `AesCipher.InvCipherOfCipher` | src/util/aes.c:652-748 | The inverse cipher of section 5.3 undoes the cipher of section 5.1, for every state and every list of round keys. |
| `AesCipher.CipherOfInvCipher` | src/util/aes.c:652-748 | And the other way round, so encryption under a key is a permutation. |
| `AesCipher.EqInvCipherIsInvCipher` | src/util/aes.c:569-748 | The equivalent inverse cipher of section 5.3.5, on round keys transformed by InvMixColumns, is the inverse cipher. |
| `AesKeys.AesContext.SetKeyEnc` | src/util/aes.c:476-562 | For 128, 192 and 256 bits the words written meet the recurrence of section 5.2 and stay inside the 68-word buffer; another key length is refused and changes nothing. |
| `AesKeys.AesContext.SetKeyDec` | src/util/aes.c:569-612 | Round r of the decryption schedule is encryption round nr - r, under InvMixColumns for the inner rounds. |
| `AesKeys.AesContext.InvertRound` | src/util/aes.c:596-601 | One inner round of the inversion writes the next round key of that schedule. |
| `AesKeys.PlainStep` | src/util/aes.c:519-521 | A word that only xors two earlier words is the word of section 5.2 at that index. |
| `AesKeys.RotStep` | src/util/aes.c:515-517 | A word made with the rotated, substituted word and RCON is the word of section 5.2 at a multiple of the key length. |
| `AesKeys.SubStep` | src/util/aes.c:551-552 | The extra substitution of the 256-bit schedule is that of section 5.2. |
| `AesKnownKeys.Key192Last` | src/util/aes.c:525-540 | The key of appendix A.2 of FIPS 197 expands to the last round key printed there. |
| `AesKnownKeys.Key256Last` | src/util/aes.c:542-558 | So does the key of appendix A.3. |
| `AesBlock.FRoundIs` | src/util/aes.c:616-630 | One forward round on four words, keys added, is one round of section 5.1 on the state they pack. |
| `AesBlock.RRoundIs` | src/util/aes.c:632-646 | One reverse round is one round of the equivalent inverse cipher. |
| `AesBlock.FFinalIs` | src/util/aes.c:675-690 | The byte-wise last round is the round without MixColumns. |
| `AesBlock.RFinalIs` | src/util/aes.c:730-745 | The byte-wise last inverse round is the round without InvMixColumns. |
| `AesBlock.Encrypt` | src/util/aes.c:652-693 | The block function writes the encryption of the input block to its 16 output bytes and nothing else; the two buffers may be one. |
| `AesBlock.Decrypt` | src/util/aes.c:707-748 | With the decryption schedule of a key, the block function writes the inverse cipher of the input block under that key. |
| `AesBlock.BlockRoundTrip` | src/util/aes.c:652-748 | On bytes, decryption undoes encryption and encryption undoes decryption. |
| `AesKnown.CiphertextOfExample` | src/util/aes.c:476-693 | The plaintext and the key of appendix C.1 of FIPS 197 give its ciphertext, by S-box, key expansion and every round. |
| `AesCbc.CbcDecryptOfEncrypt` | src/util/aes.c:778-820 | CBC decryption undoes CBC encryption for any number of blocks. |
| `AesCbc.CbcEncryptOfDecrypt` | src/util/aes.c:778-820 | CBC encryption undoes CBC decryption. |
| `AesCbc.CbcInjective` | src/util/aes.c:778-820 | Two messages have the same ciphertext under one key and vector only if they are equal. |
| `AesCbc.CbcEncryptAt` | src/util/aes.c:806-817 | Every ciphertext block is the encryption of its plaintext block added to the ciphertext block before it, the first one to the vector. |
| `AesCbc.CbcDecryptAt` | src/util/aes.c:793-805 | Every plaintext block is the decryption of its ciphertext block added to the ciphertext block before it, the first one to the vector. |
| `AesCbc.AddBytesBit` | src/util/aes.c:800-809 | Adding blocks is the exclusive or of every bit. |
| `AesCbc.CbcEncryptSplit` | src/util/aes.c:806-817 | With the updated vector, encrypting a message in two calls equals encrypting it in one. |
| `AesCbc.CbcDecryptSplit` | src/util/aes.c:793-805 | The same for decryption. |
| `AesCbc.CryptCbc` | src/util/aes.c:778-820 | The loops compute CBC of section 6.2 of NIST SP 800-38A and leave the last ciphertext block as the vector, the same in place as with two buffers; a length that is not a multiple of 16 is refused. |
| `AesDecode.ZeroPaddingReached` | src/util/aes.c:839-860 | The ciphertext is that of the zero-padded data if and only if the call is in place or the input goes on with zeros. |
| `AesDecode.AesCbcCall` | src/util/aes.c:822-872 | When the wrapper refuses, exactly, and that a refused call changes neither output nor vector; when a call touches bytes outside its buffers, exactly; and otherwise what output and vector hold. |
| `AesDecode.UrlTrimIs` | src/util/aes_decode.c:18-34 | The trim predicate accepts exactly the bytes up to 32. |
| `AesDecode.TrimUndoesPadding` | src/util/aes_decode.c:69-70 | Cutting at NUL and trimming a padded text gives the text back if and only if it has no NUL and no trailing byte up to 32. |
| `AesDecode.DecodeRecovers` | src/util/aes_decode.c:38-79 | With the 192-bit key of a full secret or the first 128 bits of a partial one, and the first 16 bytes as the vector: for any padding of bytes up to 32, zero padding and that of RFC 5652 section 6.3 included, decoding gives the text back if and only if it is clean in that sense. |
| `AesDecode.DecodeOfAesCbc` | src/util/aes_decode.c:38-79 | Decoding what the in-place wrapper encrypted gives the plaintext back if and only if it is clean. |
| `AesDecode.AesDecodeCall` | src/util/aes_decode.c:48-78 | aes_decode from the decoded ciphertext on, for every length: NULL exactly for a length that is no multiple of 16, out of its 512-byte buffer exactly for more bytes or 512 bytes of text without NUL, and otherwise the trimmed text. |
| `BlockHash.FoldConcat` | src/util/sha256.c:172-201 | Compressing the blocks of a concatenation continues from the state the first part left. |
| `BlockHash.AbsorbBlock` | src/util/sha256.c:172-201 | Compressing the buffered tail and the bytes that complete it keeps the absorbed state right, for any compression function. |
| `BlockHash.AbsorbPart` | src/util/md5.c:221-257 | Buffering bytes that complete no block keeps it right. |
| `Sha256Impl.FastChIsCh` | src/util/sha256.c:79 | The rewritten Ch is that of section 4.1.2 of FIPS 180-4. |
| `Sha256Impl.FastMajIsMaj` | src/util/sha256.c:80 | The rewritten Maj is that of section 4.1.2. |
| `Sha256Impl.RoundByMacro` | src/util/sha256.c:88-92 | The round macro, which assigns two of eight variables, is the round of section 6.2.2 up to the rotation of names. |
| `Sha256Constants.ConstantsAreCubeRoots` | src/util/sha256.c:57-70 | Section 4.2.2: constant t is the first 32 bits of the fraction of the cube root of the t-th prime, for all 64. |
| `Sha256Constants.InitialIsSquareRoots` | src/util/sha256.c:155-162 | Section 5.3.3: the initial hash value is the fractions of the square roots of the first eight primes. |
| `Sha256Constants.WordsAsBytes` | src/util/sha256.c:26-38 | A word loaded from four bytes is stored as those bytes. |
| `Sha256Constants.LengthField` | src/util/sha256.c:40-50 | The eight bytes of the length field are the length, high byte first, for every length below 2^64. |
| `Sha256Known.DigestOfAbc` | src/util/sha256.c:99-266 | The digest of "abc" is that of the standard's example, through all 48 schedule words and 64 rounds. |
| `Sha256Impl.Sha256Context.FillSchedule` | src/util/sha256.c:112-120 | W holds the message schedule of section 6.2.2. |
| `Sha256Impl.Sha256Context.Transform` | src/util/sha256.c:99-140 | One call is one compression of section 6.2.2. |
| `Sha256Impl.Sha256Context.Update` | src/util/sha256.c:172-201 | Whatever is buffered, the context has absorbed the old message and the new bytes; its early return is never taken. |
| `Sha256Impl.Sha256Context.Finalise` | src/util/sha256.c:210-249 | The digest of the absorbed message padded as in section 5.1.1, on both padding branches; the early return is never taken. |
| `Sha256Impl.HashChunks` | src/util/sha256.c:172-249 | For any split into updates, empty ones included, the digest is that of the concatenation. |
| `Sha256Impl.Calculate` | src/util/sha256.c:257-266 | The one-call form computes the same digest. |
| `Hmac.HmacSha256` | src/util/hmac_sha256.c:30-69 | The output gets a prefix of the code's MAC of the length asked for, at most 32, and keeps the rest of its bytes. |
| `Hmac.CodeIsHmac` | src/util/hmac_sha256.c:30-103 | The bytes that reach the hash calls are those of section 2 of RFC 2104 if and only if the sizes fit 32 bits, and then the MAC is HMAC-SHA-256. |
| `Hmac.XorEachBit` | src/util/hmac_sha256.c:56-59 | The pads are the key with the bits of the pad byte flipped: each bit, each byte. |
| `Hmac.HmacOfJefe` | src/util/hmac_sha256.c:44-67 | Under the example key of RFC 2104, the MAC of any text is two hashes with the pads written out byte by byte. |
| `Hmac.LongKeyIsItsDigest` | src/util/hmac_sha256.c:48-54 | In the code, a key over 64 bytes of any length acts as the digest of what the hash sees of it. |
| `Hmac.ZeroExtendedKey` | src/util/hmac_sha256.c:44-54 | In the code, a key of at most 64 bytes acts as any extension of it with zeros up to 64. |
| `Md5Rounds.F1IsF` | src/util/md5.c:128 | The rewritten F is that of section 3.4 of RFC 1321. |
| `Md5Rounds.F2IsG` | src/util/md5.c:149 | The rewritten G is that of section 3.4. |
| `Md5Rounds.StepByMacro` | src/util/md5.c:115-121 | The P macro is one operation of section 3.4, up to the rotation of names. |
| `Md5Rounds.Operations0` | src/util/md5.c:130-137 | The first eight unrolled operations are the first eight of section 3.4; seven more methods treat the others. |
| `Md5Known.WordsAsBytes` | src/util/md5.c:43-60 | A word loaded from four bytes is stored as those bytes. |
| `Md5Known.InitialBytes` | src/util/md5.c:83-92 | Section 3.3: the initial value is the bytes 01 23 45 67 89 ab cd ef fe dc ba 98 76 54 32 10. |
| `Md5Known.LengthField` | src/util/md5.c:271-275 | The eight bytes of the length field are the length, low byte first, for every length below 2^64. |
| `Md5Known.DigestOfAbc` | src/util/md5.c:94-302 | The digest of "abc" is that of the test suite of RFC 1321, through all 64 operations. |
| `Md5Impl.Md5Context.Process` | src/util/md5.c:94-216 | One call is one compression of section 3.4. |
| `Md5Impl.Md5Context.Update` | src/util/md5.c:221-257 | The context has absorbed the old message and the new bytes; the two-word counter grows by the low 32 bits of the size modulo 2^64, so a right one stays right if and only if the update is under 2^32 bytes. |
| `Md5Impl.Md5Context.Finish` | src/util/md5.c:266-288 | The two closing updates end on a block boundary, and the digest is that of the message padded with the length the counter says, whatever that is. |
| `Md5Spec.PaddingExactly` | src/util/md5.c:266-288 | Padding with a counted length is that of sections 3.1 and 3.2 of RFC 1321 if and only if the count is right modulo 2^61 bytes. |
| `Md5Impl.HashChunks` | src/util/md5.c:221-302 | For any split into updates of any sizes the digest is that of the concatenation with the length the counter adds up to. |
| `Md5Impl.HashChunksIsMd5` | src/util/md5.c:221-302 | When every update is under 2^32 bytes that is MD5 of the concatenation. |
| `Md5Impl.Md5Call` | src/util/md5.c:293-302 | The one-call form, for every size: the digest with the low 32 bits of the size for a length. |
| `Md5Impl.Md5CallIsMd5` | src/util/md5.c:293-302 | Its padding is that of RFC 1321 if and only if the size modulo 2^61 fits 32 bits, and the digest is then MD5. |
| `Md5Impl.HexRoundTrip` | src/util/md5.c:304-322 | Reading the hex string back as digits gives the digest bytes, high digit first. |
| `Md5Impl.HexDigits` | src/util/md5.c:304-308 | The digits are 0 to 9 and a to f in this order. |
| `Md5Impl.Md5Str` | src/util/md5.c:310-322 | The string form writes that digest in hexadecimal and its terminator. |
| `MqttPub.SendFromAccounts` | src/iot/iot_mqtt.c:218-243 | The send loop moves handles from unsent to wired one for one, and adds one unacknowledged message exactly when it stopped at a QoS 1 send. |
| `MqttPub.SendFromInOrder` | src/iot/iot_mqtt.c:218-243 | Without a failing send, the loop sends a prefix of what can be sent, in list order. |
| `MqttPub.KeepAccounts` | src/iot/iot_mqtt.c:245-274 | Compaction frees the removed copies and no others and keeps what is unsent, in order. |
| `MqttPub.KeepMembers` | src/iot/iot_mqtt.c:245-274 | An entry stays if and only if it is not a sent QoS 0 message. |
| `MqttPub.PublishKeeps` | src/iot/iot_mqtt.c:624-708 | Publishing keeps the queue invariant: at most 11 entries, exact accounting, and as many unacknowledged messages as the flag and the lost waits explain. |
| `MqttPub.WriteableKeeps` | src/iot/iot_mqtt.c:215-278 | A WRITEABLE keeps it, whichever sends fail. |
| `MqttPub.AckKeeps` | src/iot/iot_mqtt.c:280-324 | An ACK keeps it. |
| `MqttPub.OnceOnly` | src/iot/iot_mqtt.c:215-325 | Under the invariant no message was wired or freed twice, and the accepted ones are exactly the wired and the unsent. |
| `MqttPub.AckTakesFirst` | src/iot/iot_mqtt.c:280-324 | An ACK while waiting removes and frees exactly the first sent QoS 1 entry, keeps the order of the rest, and takes the message in flight if no wait was lost. |
| `MqttPub.AckMatches` | src/iot/iot_mqtt.c:280-324 | It frees the message in flight if and only if no other sent QoS 1 entry stands before it. |
| `MqttPub.OneInFlight` | src/iot/iot_mqtt.c:217-243 | Without a reconnect while waiting, at most one message is sent and unacknowledged, and it is the one the flag is about. |
| `MqttPub.FrozenExactly` | src/iot/iot_mqtt.c:217-325 | No call and no callback changes the queue if and only if no PUBACK is due, the list is full and the loop can send none of it. |
| `MqttPub.OrphansFill` | src/iot/iot_mqtt.c:58-66 | At most eleven waits are ever lost, and the eleventh freezes the queue. |
| `MqttOrder.SendFromCounts` | src/iot/iot_mqtt.c:218-243 | Whatever fails, the loop sends only messages of QoS 0 and 1 that are not sent yet, and each once. |
| `MqttOrder.SendFromOrder` | src/iot/iot_mqtt.c:218-243 | The handles the send loop puts on the wire are a prefix of what can be sent if and only if it sends none after a failed send; and then the rest is still to be sent, in order. |
| `MqttOrder.WriteableOrder` | src/iot/iot_mqtt.c:215-278 | A WRITEABLE keeps the wire order a prefix of the order of acceptance if and only if it does not overtake. |
| `MqttDrain.SendFromLeft` | src/iot/iot_mqtt.c:218-243 | Without a failing send, the loop either sends exactly one QoS 1 message or leaves nothing to send. |
| `MqttDrain.Drain` | src/iot/iot_mqtt.c:215-325 | With q QoS 1 messages still to be sent, fewer than q rounds of WRITEABLE and ACK leave something to send; after q + 1 the wire holds all accepted QoS 0 and QoS 1 messages in order of acceptance. |
| `MqttSub.AddAllIsFirstSeen` | src/iot/iot_mqtt.c:131-174 | The moving loop appends exactly the first occurrence of each topic that is not there yet, in order. |
| `MqttSub.AddAllHas` | src/iot/iot_mqtt.c:131-174 | A topic is in the map afterwards if and only if it was there or was moved. |
| `MqttSub.AddAllDistinct` | src/iot/iot_mqtt.c:131-174 | Topics in the map stay pairwise distinct. |
| `MqttSub.WriteableKeeps` | src/iot/iot_mqtt.c:94-212 | A WRITEABLE keeps the subscription invariant. |
| `MqttSub.ReconnectKeeps` | src/iot/iot_mqtt.c:598-622 | So does a reconnect, successful or not. |
| `MqttSub.Drain` | src/iot/iot_mqtt.c:89-212 | ceil(n/7) successful rounds empty a list of n topics and no fewer do; the map is then the old one and the first occurrences of the new topics, and every queued topic was carried once, in order. |
| `MqttSub.ReconnectResubscribes` | src/iot/iot_mqtt.c:598-622 | After a reconnect, draining carries every subscribed topic again and leaves the map as it would have been without the reconnect. |
| `Mqtt.RunKeeps` | src/iot/iot_mqtt.c:50-325 | Both invariants hold after every sequence of calls and callbacks. |
| `Mqtt.RunSafe` | src/iot/iot_mqtt.c:50-325 | On every run nothing is wired twice, every accepted message is unsent or wired and never both, the list has at most 11 entries, and the unacknowledged messages number the flag plus the ESTABLISHED events seen while waiting. |
| `Mqtt.OrphansAreLostWaits` | src/iot/iot_mqtt.c:58-66 | The orphan count of a run is the number of ESTABLISHED events that found the flag set. |
| `Mqtt.RunFrees` | src/iot/iot_mqtt.c:469-512 | A run closed by deinit frees every accepted copy exactly once. |
| `Mqtt.RunOrderExactly` | src/iot/iot_mqtt.c:215-325 | On every run the wire order is a prefix of the acceptance order if and only if no WRITEABLE of the run sends a message after a failed send; the rest of that order is then what is still to be sent. |
| `Mqtt.RunInOrder` | src/iot/iot_mqtt.c:215-325 | So it is when every send succeeds, and the order of acceptance is increasing. |
| `Mqtt.RunWires` | src/iot/iot_mqtt.c:215-325 | On every run, whatever fails, the accepted messages of QoS 0 and 1 are exactly those on the wire and those that can still be sent; no other is ever on the wire. |
| `Mqtt.FailedSendReorders` | src/iot/iot_mqtt.c:224-231 | A run in which a failing QoS 0 send swaps two messages on the wire. |
| `Mqtt.FailedQos1Reorders` | src/iot/iot_mqtt.c:232-242 | A run in which a failing QoS 1 send does. |
| `Mqtt.FrozenStays` | src/iot/iot_mqtt.c:50-325 | A frozen queue is the same after whatever follows. |
| `Mqtt.OtherQosFills` | src/iot/iot_mqtt.c:624-708 | Eleven accepted messages of another QoS freeze the queue without any reconnect. |
| `Mqtt.OrphanIsAcked` | src/iot/iot_mqtt.c:58-66 | A run in which an ACK frees another message than the one in flight. |
| `Mqtt.RunSubscribes` | src/iot/iot_mqtt.c:68-213 | On every run map topics are distinct, each SUBSCRIBE carries 1 to 7, at most one is outstanding, and every subscribed topic was carried since the last connect or is queued. |
| `MqttRun.RunTopics` | src/iot/iot_mqtt.c:710-725 | On every run each topic that a call subscribed is in the map or queued, and whatever is in the map or queued was subscribed by a call with that QoS and handler. |
| `MqttRun.SubscribeIgnoredExactly` | src/iot/iot_mqtt.c:715-720 | A subscribe call changes nothing if and only if its topic is in the map. |
| `MqttRun.WorkingSubscribes` | src/iot/iot_mqtt.c:58-213 | After any run, an ESTABLISHED and ceil(n/7) rounds of WRITEABLE and SUBSCRIBED carry the n queued topics in order and put each new one into the map. |
| `MqttRun.EverySubscriptionArrives` | src/iot/iot_mqtt.c:58-213 | So every topic any call of the run subscribed is then in the map. |
| `MqttRun.NewSubscriptionArrives` | src/iot/iot_mqtt.c:58-213 | A topic no earlier call subscribed is then in the map, and was carried, with the QoS and handler of its call. |
| `MqttRun.WorkingPublishes` | src/iot/iot_mqtt.c:58-325 | After any run, with one more round of WRITEABLE and ACK than QoS 1 messages are left, all accepted QoS 0 and 1 messages are on the wire, in order of acceptance unless a WRITEABLE of the run overtook. |
| `MqttRun.ClosedResubscribes` | src/iot/iot_mqtt.c:50-56 | After any run that ends with CLOSED, auto-reconnect and a successful connect, a working connection carries what was queued and every topic of the map again, and leaves the map as without the disconnection. |
| `MqttRun.ClosedKeeps` | src/iot/iot_mqtt.c:50-56 | A CLOSED changes nothing if and only if there is no auto-reconnect, the connect fails, or there was nothing subscribed and nothing carried. |
| `MqttRun.ReconnectIsClosed` | src/iot/iot_mqtt.c:598-622 | An explicit reconnect leaves every run where a CLOSED with auto-reconnect does. |
| `MqttRun.RunAccepts` | src/iot/iot_mqtt.c:624-708 | On every run the accepted messages number the publish calls that found at most 10 pending. |
| `Mqtt.RunGrows` | src/iot/iot_mqtt.c:50-325 | Continuing a run only extends the map and the logs, and never undoes a lost wait. |
| `MqttClient.MqttContext.Publish` | src/iot/iot_mqtt.c:624-708 | The call does the publish step; it fails exactly when more than 10 entries are pending. |
| `MqttClient.MqttContext.SendPending` | src/iot/iot_mqtt.c:218-243 | The in-place send loop is the send function. |
| `MqttClient.MqttContext.Compact` | src/iot/iot_mqtt.c:245-274 | The in-place compaction of the two parallel arrays is the compaction function. |
| `MqttClient.MqttContext.Writeable` | src/iot/iot_mqtt.c:89-278 | The callback does the WRITEABLE step. |
| `MqttClient.MqttContext.Ack` | src/iot/iot_mqtt.c:280-324 | The callback does the ACK step. |
| `MqttClient.MqttContext.Subscribe` | src/iot/iot_mqtt.c:710-725 | The call does the subscribe step. |
| `MqttClient.MqttContext.MoveToMaps` | src/iot/iot_mqtt.c:131-174 | The nested loops are the moving function. |
| `MqttClient.MqttContext.Established` | src/iot/iot_mqtt.c:58-66 | The callback does the ESTABLISHED step. |
| `MqttClient.MqttContext.Subscribed` | src/iot/iot_mqtt.c:68-87 | The callback does the SUBSCRIBED step. |
| `MqttClient.MqttContext.Reconnect` | src/iot/iot_mqtt.c:598-622 | The call queues the map again exactly when the connect succeeds. |
| `MqttClient.MqttContext.Closed` | src/iot/iot_mqtt.c:50-56 | The callback reconnects exactly when configured to. |
| `MqttClient.MqttContext.Deinit` | src/iot/iot_mqtt.c:498-508 | The loop frees the copies still pending. |
| `Framing.SplitConserves` | src/protocols/lws_http_client.c:427-469 | The frames and the rest join up to the data, and the rest holds no frame. |
| `Framing.SplitPrefix` | src/protocols/lws_http_client.c:414-469 | On stable data, cutting what has arrived and then the rest is cutting everything. |
| `Framing.ChunksIrrelevantExactly` | src/protocols/lws_http_client.c:414-469 | For any self-contained cutter the frames are independent of the chunks if and only if no part of the data shows another frame than the whole, wherever a frame starts. |
| `Framing.SelfDelimitingSplit` | src/onesdk_rt.c:48-129 | With a self-delimiting cutter the frames of the chunks are the frames of the stream. |
| `Framing.DeadEndExactly` | src/onesdk_rt.c:48-129 | Nothing is cut from the buffer on any run, and it only grows, if and only if no continuation of it starts with a frame. |
| `SseFraming.CleanFirst` | src/protocols/lws_http_client.c:437-460 | The first block is found alike in every part of the data if and only if it does not mix the delimiters. |
| `SseFraming.SseChunks` | src/protocols/lws_http_client.c:426-461 | The blocks are independent of the chunks if and only if no block of the whole stream that ends in CR LF CR LF contains LF LF. |
| `SseFraming.OneDelimiter` | src/protocols/lws_http_client.c:426-461 | So they are for a stream with one kind of delimiter. |
| `SseFraming.MixedStream` | src/protocols/lws_http_client.c:437-460 | A mixed stream of six bytes that is one block in one chunk and two blocks in two. |
| `SseBuffer.Memmem` | src/protocols/http_libs.c:189-204 | The search finds the first occurrence, or none exactly when there is none. |
| `SseBuffer.SseContext.Append` | src/protocols/lws_http_client.c:414-422 | A chunk is appended as far as 15359 bytes are not exceeded. |
| `SseBuffer.SseContext.Deliver` | src/protocols/lws_http_client.c:427-461 | The loop hands over the parse of every block of the buffer, in order, up to the first that does not fit the parser's buffers; it fails exactly when there is one. |
| `SseBuffer.SseContext.Receive` | src/protocols/lws_http_client.c:411-471 | One read delivers the blocks of the retained bytes and the part of the chunk that fits, and retains the rest; it fails exactly at a block that does not fit the parser's buffers. |
| `SseBuffer.SseContext.ReceiveAll` | src/protocols/lws_http_client.c:411-471 | Reads of any chunks in turn deliver and retain what the function Feed says, truncation included. |
| `SseBuffer.FeedStream` | src/protocols/lws_http_client.c:411-471 | Over any chunks used_len stays at most 15359; blocks and rest join up to the stream if and only if nothing overflows; and for an unmixed stream they are then those of the joined chunks. |
| `SseBuffer.StuckExactly` | src/protocols/lws_http_client.c:414-460 | With no delimiter in the buffer, nothing is ever delivered again if and only if the room left is less than the one or two bytes that complete one. |
| `SseParse.LineAt` | src/protocols/http_libs.c:99-110 | The scan for LF with the CR check yields the lines of the block. |
| `SseParse.KeyOf` | src/protocols/http_libs.c:118-123 | The key is the text before the colon without trailing space. |
| `SseParse.SkipSpace` | src/protocols/http_libs.c:126-129 | The skip over leading space, which runs on the whole message, stops inside a line whose value is not blank. |
| `SseParse.Field` | src/protocols/http_libs.c:115-133 | A line with a colon gives its key and value, or does not fit the buffers: an overlong key or value, or a blank value. |
| `SseParse.ParseSseMessage` | src/protocols/http_libs.c:92-178 | For every block, NULs included: the loop finds the value of the last event line and of the last data line before a line that starts with a NUL, or stops exactly when a line does not fit the buffers; the key left over from an earlier line never changes that. |
| `SseRender.LinesOfJoined` | src/protocols/http_libs.c:98-110 | Splitting into lines undoes joining them, with LF and CR LF mixed. |
| `SseRender.SpacedField` | src/protocols/http_libs.c:112-133 | A field is read back as its key and value whatever spaces stand around the colon, and it fits the buffers if and only if the key has at most 127 bytes and the value 1 to 15359. |
| `SseRender.IsSpaceExactly` | src/protocols/http_libs.c:119-129 | The bytes trimmed are the space and the bytes 9 to 13. |
| `SseRender.NulEnds` | src/protocols/http_libs.c:92-178 | From a line that starts with a NUL on, other than the first, nothing of a block counts. |
| `SseRender.RoundTrip` | src/protocols/http_libs.c:92-178 | Parsing a rendered event gives its last event and last data field, whatever comments, other fields and lines without colon stand between. |
| `SseRender.StreamSplit` | src/protocols/lws_http_client.c:426-461 | Cutting a rendered stream as a whole gives the rendered events and leaves nothing. |
| `SseStream.StreamDelivered` | src/protocols/lws_http_client.c:411-471 | Through the 15360-byte buffer, a rendered stream with one kind of line end is cut into its events, however it is chunked, if and only if no read overflows. |
| `SseStream.ReceiveStream` | src/protocols/lws_http_client.c:411-471 | Then reads of all chunks deliver the last name and last data of each event, in order, and leave the buffer empty. |
| `RtReceive.RtContext.Reserve` | src/onesdk_rt.c:28-47 | For every size: whether the chunk is taken, dropped by the guard or would run past the buffer; when taken there is room for it, the content is kept, and the capacity is as computed. |
| `RtReceive.RtContext.Dispatch` | src/onesdk_rt.c:53-129 | The parse loop dispatches the messages at the front of the buffer and keeps the rest; it ends because the buffer shrinks. |
| `RtReceive.RtContext.Receive` | src/onesdk_rt.c:24-130 | A chunk that is taken dispatches the messages of the buffered bytes and the chunk, and the rest is retained; one that is not leaves everything as it was. |
| `RtReceive.RtContext.ReceiveAll` | src/onesdk_rt.c:24-130 | All chunks of a stream in turn dispatch the messages of the stream, for a self-delimiting parser. |
| `RtReceive.TakenExactly` | src/onesdk_rt.c:28-47 | A chunk is taken if and only if it fits or twice what is needed is a size_t. |
| `RtReceive.GuardIsDead` | src/onesdk_rt.c:33-39 | On sizes an object can have, the guard never drops a chunk, and a doubled size beyond size_t runs past the new buffer. |
| `RtReceive.GrowthLaws` | src/onesdk_rt.c:28-47 | When a chunk is taken, size stays within capacity, a regrowth more than doubles the capacity, and it is twice the size that caused it. |
| `RtReceive.RunFits` | src/onesdk_rt.c:24-130 | On every run the content fits and the capacity is at most twice the stream. |
| `RtReceive.RunContent` | src/onesdk_rt.c:24-130 | With a self-delimiting parser the messages dispatched over a run, and what is retained, are those of the stream, however it is chunked. |
| `RtReceive.NeverAgain` | src/onesdk_rt.c:48-129 | When no continuation of the buffer starts with a message, nothing is dispatched on any run and the buffer only grows. |
| `RtReceive.WokenUp` | src/onesdk_rt.c:48-129 | Otherwise a continuation that does, if it is taken, has a message dispatched. |
| `Headers.Strcat` | src/protocols/http.c:163-167 | strcat appends within the buffer when the buffer is long enough. |
| `Headers.HttpContext.AddHeader` | src/protocols/http.c:136-168 | The new string is the old one and the printed header, and every strcat stays within the length computed. |
| `Headers.PrintSplitRoundTrip` | src/protocols/http.c:163-167 | A list of headers is split back into itself, in order, if and only if no name holds a colon or line break and no value a line break or leading space. |
| `Headers.SplitGood` | src/protocols/lws_http_client.c:217-233 | Whatever the string, the splitter only yields headers of that kind. |
| `Headers.TakeHeader` | src/protocols/lws_http_client.c:219-233 | The in-place step yields the name and value of a line and cuts the string at its colon. |
| `Headers.SplitNext` | src/protocols/lws_http_client.c:217-233 | One turn of the tokenizer loop takes one line off the string that is left. |
| `Headers.SplitInPlace` | src/protocols/lws_http_client.c:209-235 | One pass yields the headers of the string; what it leaves is the string up to the colon of its first line, in which a second pass finds none. |
| `Headers.AddAndSplit` | src/protocols/http.c:136-168 | Headers added one by one come back from the in-place splitter if and only if they are good, and a second pass over the same buffer yields none. |
| `Headers.SendTwice` | src/protocols/http.c:136-168 | Good headers sent, one more added and sent again: the second pass yields only the new one, its name after that of the first header. |
| `WsRing.RunConserves` | src/infer_realtime_ws.c:75-103 | On every run, in every context, messages written in full and then the ring are the accepted ones, in order. |
| `WsRing.WritesDrain` | src/infer_realtime_ws.c:75-103 | As many successful writes as the ring holds messages write everything accepted. |
| `WsRing.WrittenExactly` | src/infer_realtime_ws.c:75-103 | A WRITEABLE takes the head of the ring if and only if the context is connected and the whole head was written, and otherwise changes nothing. |
| `WsRing.ErrorConnectsBounded` | src/infer_realtime_ws.c:36-60 | Between two ESTABLISHED events, whichever contexts they are for, at most 3 connects follow connection errors, those of all contexts together. |
| `WsRing.SendConnectsBounded` | src/infer_realtime_ws.c:365-369 | Between two ESTABLISHED events of a context at most one of its sends connects. |
| `WsRing.FirstSendConnects` | src/infer_realtime_ws.c:365-369 | When an established connection is lost, the sends of the context make exactly one connect until its next ESTABLISHED if there is one, and none otherwise. |
| `WsRing.LiveSends` | src/infer_realtime_ws.c:365-369 | Until an established connection is lost, no send connects. |
| `WsRing.SilentWhenLost` | src/infer_realtime_ws.c:51-78 | After a CLOSED or an error, nothing is written and nothing pings until an ESTABLISHED of the context. |
| `WsRing.ContextBoundExactly` | src/infer_realtime_ws.c:36-60 | Between two ESTABLISHED events of a context, with m of other contexts in between, a number bounds its connects after errors on every run if and only if it is at least 3 * (m + 1). |
| `WsRing.ThreeExactly` | src/infer_realtime_ws.c:36-60 | So 3 connects bound a context on its own if and only if no other context has an ESTABLISHED in between. |
| `WsRing.OtherContextResets` | src/infer_realtime_ws.c:36-50 | The run of two contexts in which one makes six such connects without an ESTABLISHED of its own. |
| `WsRing.ErrorsReconnect` | src/infer_realtime_ws.c:51-60 | Of n errors in a row after an ESTABLISHED the first three reconnect and no later one does. |
| `WsRing.PingsEvery` | src/infer_realtime_ws.c:156-168 | With an interval of p, n timer ticks of a connection write n / (p + 1) pings. |
| `WsRing.WsContext.SendRequest` | src/infer_realtime_ws.c:360-392 | The call does the send step, reconnecting at most once, and reports success always; the message goes to the end of the ring, or is dropped exactly when the ring is full. |
| `WsRing.WsContext.OnWriteable` | src/infer_realtime_ws.c:75-103 | The callback does the write step and returns -1 exactly when not connected or the write fell short. |
| `WsRing.WsContext.OnConnectionError` | src/infer_realtime_ws.c:51-60 | The callback does the error step on its context and on the count all contexts share. |
| `WsRing.WsContext.OnEstablished` | src/infer_realtime_ws.c:42-50 | The callback marks the context connected and sets the shared count to 0. |
| `WsRing.WsContext.OnTimer` | src/infer_realtime_ws.c:156-175 | The callback does the timer step. |
| `AcquireMany.RoundUpIsLeast` | src/aws/common/allocator.c:211 | On words of any width the mask formula is the least multiple of 8 not below its argument, and it is not below it exactly when adding 7 does not wrap. |
| `AcquireMany.RegionsTile` | src/aws/common/allocator.c:222-252 | Regions are aligned, hold their size and at most 7 bytes more, and each ends where the next, or the block, does. |
| `AcquireMany.RegionsDisjoint` | src/aws/common/allocator.c:240-251 | A region ends before any later one starts. |
| `AcquireMany.RegionsHoldExactly` | src/aws/common/allocator.c:222-252 | Every region is as long as asked if and only if no size_t operation of the first pass wraps around. |
| `AcquireMany.AcquireMany` | src/aws/common/allocator.c:213-256 | The two passes agree for all sizes: the pointers are the block and the rounded sizes before each, modulo the word size; no pointer is written when the total is 0. |

## Left out

- Sending, connecting, TLS, timers and the event loop of libwebsockets: sends and connects succeed or fail as a parameter says, and callbacks may come in any order.
- `lws_ring` is a bounded FIFO of a capacity given as a parameter; cJSON is a function that says how long the first message of the buffer is; base64 decoding happens before the modelled part of `aes_decode`.
- Allocation failure, mutexes and logging; two threads inside one call.
- NULL arguments and the checks for them.
- `AesCbc.CryptCbc`: input and output are one buffer or two separate ones; buffers that overlap in part and a vector inside them are not modelled.
- `AesDecode.AesCbcCall`: where the source would read or write outside its buffers (an input that ends before the padded length, an output of another size than the caller says) the model stops with a flag, since nothing can be said of what follows.
- `AesTables.Tables.GenLogs`: works on bytes where the source masks ints with 0xFF, and leaves out the static tables of the other build configuration.
- `AesBlock.Encrypt`: the key pointer is an index into the round keys, not a pointer kept in the context.
- ECB as an API, the self test and zeroising of keys.
- `Sha256Impl.Sha256Context.Update`: takes at most 2^32 - 1 bytes, which is what its size parameter can say.
- `Md5Impl.Md5Context.Process`: the or of two shifted parts of a word is their sum, since their bits are disjoint.
- `AesDecode.AesDecodeCall`: likewise stops where 512 bytes of buffer are not enough; the secret is as long as the key and vector read from it.
- Hash contexts are not modelled after their digest was taken.
- `MqttPub.PublishKeeps`: topic and payload are represented by the number of the copy that was made of them.
- Dispatch of received MQTT messages: its length-limited comparison also accepts a topic that is a prefix of a subscription, so no exact-match property holds.
- `SseParse.ParseSseMessage`: the result after a step outside the parser's buffers; a blank value in a last line without line end, which no block of the cutter has, counts as one.
- `SseBuffer.SseContext.Receive`: the context after such a block; the id field is never kept by the source either.
- The lone CR as a line end and the joining of several data lines, which the source does not implement.
- `RtReceive.RtContext.Receive`: the context after a copy past its buffer; the choice of callback by the message's type field.
- `Headers.SplitInPlace`: every header added to the request is taken to fit; the source stops at one that does not.
- `WsRing.WsContext.SendRequest`: the sleep after a connect, and contexts used from several threads, which share the reconnect count without a lock.
- `WsRing.WsContext.OnTimer`: intervals are not negative, and a failing ping write, which the source only logs, counts as a ping.
- `AcquireMany.AcquireMany`: the alignment of the block itself is the allocator's, and so is whether the pointers of a wrapped total mean anything.
- `aws_mem_realloc`, config duplication, the JSON builders, device registration, file download and chat accumulation: plumbing without a property beyond its own body.
