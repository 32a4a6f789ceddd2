# Node firmware: a verified model

This project models the parts of the Reticulum node's firmware that carry state, protocols or
parsing, and proves what they promise.

- **Secure element driver** (`Bytes`, `BlockModes`, `Tlv`, `SecureMessaging`, `Card`, `Derivation`,
  `Channel`, `Rotation`, `Driver`, `Link`, `Stack`, `Buffers`, `Vectors`). The host is the class `SE050` with the source's fields. The card is a
  value machine with its own channel, session, objects and keys. `Wire` joins them under a schedule of
  faults: at each exchange the card may be reset, the command may be lost, or the answer may be lost.
  The schedule is any function, so a method's contract holds for all of them. AES is a pair of functions
  with `dec(k, enc(k, x)) == x`; agreement and signature are functions of secret and input. `Link` is
  the block layer below: CRC, header polling, waiting-time extensions, and `Stack` proves that over a lossy, distorting
  bus it realises exactly such faults. `Buffers` bounds what is written into each fixed buffer.
  `Vectors` ties the octet arithmetic to the machine's and to the published examples.
- **LoRa** (`LoRa`), **HDLC** (`Hdlc`): each an object proved against a step function, and the step
  function against what the stream means.
- **Picobin** (`Picobin`): the walk written twice, in the firmware and in the host tool, each proved
  against one definition of a closed block loop, and compared.
- **OTA** (`Ota`), **settings** (`Settings`), **OTP** (`Otp`): persisted state machines with resets and
  power cuts between steps.

Imperative code is modelled by classes and loops whose contracts equate them with specification
functions; the lemmas are about those functions over all inputs and all runs. What a wire format, a file or
a check is in octets, bits and ranges is stated a second time without those functions (the members named
`...Octets`, `...Is`, `...Means`, `...Burns`, `PutSets`, `LinesRead`, and the examples), and proved equal.

Where the code and its words differ, the code is followed:

- `X25519EcdhObject`: an exchange lost while the peer object is being created is taken for a refusal, so
  the call returns false without its second attempt. The contract says exactly when. `X25519Ecdh` still
  heals, through the inline form, but then takes the object form for refused and drops it for the rest of the run.
- `KeyEnsure`: a lost generate command or ReadObject is not retried. The contract says exactly when it fails.
- `src/NodeSettings.h:79-80` says a failed update changes nothing. When the file cannot be written the new values
  stay in RAM: `FailureChangesNothingIff`, `FailedSaveHappens`.
- Of a repeated item the firmware keeps the last and the host tool the first; `SignaturesAgreeIff` and
  `VersionsAgreeIff` give the exact condition for agreement, `SignaturesDisagree` and `VersionsDisagree` images.
- The comment at `src/se050/SE050.h:163-164` expects the chip to reject a bumped counter by its C-MAC; the
  counter enters the ICV only, not the MAC input: `SecureMessaging.OtherCounterAccepted`.
- `src/Ota.cpp:21` says the previous file holds what was running when the last upload came in. After a
  power loss while a body streams, the image file is the part that came, and the next upload sets that part
  aside instead, over the copy of the running image: `CutOffUploadSpoilsFallback`, with the exact condition
  in `UploadStarts`. An upload while an update is still pending likewise sets the candidate aside in place
  of the image from before: `UploadWhilePending`, `UploadWhilePendingEnds`, `FailedUploadBeforeReboot`.

Hypotheses, each a named predicate: `BlockModes.Lawful` (block cipher inverse), `ChannelProtocol.Apart`
(for a challenge the board draws, and whatever the chip draws, no two key sets it may use give one card
cryptogram), `Settings.Sane` (a dotted address contains no newline), `Otp.Lawful` (ECC round trip, a vote
over the critical rows that never loses a bit, two non-blank fingerprints). `Disturbed(t)` says that
exchange `t` is the only one that goes wrong.

## Model

| member | source | states |
|---|---|---|
| Bytes.ReverseInto | src/se050/SE050.cpp:751-755 | the in-place loop yields the reversal, and reversing twice is the identity (little-endian and big-endian keys) |
| Bytes.XorCancels | src/se050/SE050.cpp:514-536 | XOR with a block undoes itself; the fact under the CBC inverse |
| Bytes.XorByteIs | src/se050/SE050.cpp:299-320 | the model's exclusive or is the machine's `^` on every pair of octets |
| BlockModes.Double | src/se050/SE050.cpp:276-322 | the carry loop over a 16-octet array is the doubling of section 2.3 of RFC 4493 |
| BlockModes.ComputeCmac | src/se050/SE050.cpp:276-322 | for every message length, 0 and exact multiples of 16 included, the loop equals the recursive CMAC of sections 2.3 and 2.4 of RFC 4493 |
| Vectors.XorIs | src/se050/SE050.cpp:299-320 | exclusive or of two blocks is `^` octet by octet |
| Vectors.DblIs | src/se050/SE050.cpp:279-295 | the doubling in machine terms: every octet shifted left with the next one's top bit, 0x87 mixed into the last when the first had its top bit |
| Vectors.EmptyMessage | src/se050/SE050.cpp:276-322 | example 1 of section 4 of RFC 4493, for any cipher that agrees with AES at its points |
| Vectors.WholeBlock | src/se050/SE050.cpp:276-322 | example 2: 16 octets, the first subkey |
| Vectors.FortyOctets | src/se050/SE050.cpp:276-322 | example 3: 40 octets, two whole blocks and a padded one under the second subkey |
| Vectors.SixtyFourOctets | src/se050/SE050.cpp:276-322 | example 4: 64 octets, four whole blocks |
| Vectors.KatCmac | src/se050/SE050.cpp:1260-1273 | the firmware's own known answer for `cmac` |
| Vectors.KatKdf | tools/scp03_rotate.py:118-124 | the known answers of the key derivation that firmware and host tool both print, constants 4 and 6 |
| BlockModes.ComputeCbc | src/se050/SE050.cpp:514-536 | both directions of the in-place loop equal CBC encryption and decryption |
| BlockModes.CbcInverse | src/se050/SE050.cpp:514-536 | decryption undoes encryption for every whole number of blocks, from the block cipher's inverse alone |
| BlockModes.CbcBlocks | src/se050/SE050.cpp:514-536 | block by block (section 6.2 of NIST SP 800-38A): each plaintext block is mixed with the ciphertext block before it, the first with the IV; and back |
| Tlv.ParseEncode | src/se050/SE050.cpp:678-726 | every list of objects the driver builds is read back by the card as that list, in all three length forms |
| Tlv.Value41OfItem | src/se050/SE050.cpp:729-749 | the driver's reader returns the whole value of every first object the card can send |
| Tlv.ReadInnerOfInner | src/se050/SE050.cpp:692-715 | header and data of an inner command are recovered under both Lc encodings |
| Tlv.ReadFrameOfFrame | src/se050/SE050.cpp:678-726 | the card finds in a session frame exactly the session id, header and data it was built from |
| SecureMessaging.StripPad | src/se050/SE050.cpp:667-672 | stripping undoes padding for every payload, those ending in 80 00 octets included |
| SecureMessaging.FitsIff | src/se050/SE050.cpp:564-592 | exactly the payloads of at most 239 octets can be wrapped: both bounds of the code reduce to that |
| SecureMessaging.CommandLength | src/se050/SE050.cpp:592-609 | no accepted payload makes the wrapped command exceed the one-octet length of the link |
| SecureMessaging.ReceiveCommand | src/se050/SE050.cpp:554-609 | transparency: a card in step recovers exactly the header and data from the wrapped command, and ends with the host's channel state |
| SecureMessaging.ReadResponse | src/se050/SE050.cpp:610-676 | transparency back: the caller gets exactly the card's plaintext, cut to its buffer, through R-MAC, CBC and strip |
| SecureMessaging.ReadBareStatus | src/se050/SE050.cpp:629-636 | a bare status word reaches the caller unchanged and closes the channel exactly for 6982, 6987 and 6988 |
| SecureMessaging.SecuredClaIs | src/se050/SE050.cpp:594-600 | the security bit is bit 2 of the class octet, for every class |
| SecureMessaging.PadOctets | src/se050/SE050.cpp:575-587 | 80 and the fewest zeros that fill the last block, at least one octet in all |
| SecureMessaging.CounterOctets | src/se050/SE050.cpp:538-552 | the block behind the initial vector: the counter big-endian at the end, the top bit set for an answer |
| SecureMessaging.CommandOctets | src/se050/SE050.cpp:554-609 | a wrapped command octet by octet: header, Lc, the padded data under the IV of the next counter, the MAC over chaining value and everything before, Le; and the channel after it |
| SecureMessaging.ResponseOctets | src/se050/SE050.cpp:637-665 | a protected answer octet by octet: data under the IV with the top bit, R-MAC under its own key over chaining value, data and 90 00 |
| SecureMessaging.OtherCounterAccepted | src/se050/SE050.cpp:540-609 | the counter is in the ICV only: a card with any other counter accepts the command, stays in step with the chaining value, and misreads exactly the first block of data |
| SecureMessaging.ChainNests | src/se050/SE050.cpp:358-369 | over any number of commands the chaining value is the nested CMAC of what was sent, and the 32-bit counter has advanced once for each |
| SecureMessaging.EachCarriesItsMac | src/se050/SE050.cpp:358-369 | each command on the wire carries the first half of the nested value up to itself |
| Card.ExecuteDataFits | src/se050/SE050.cpp:554-676 | every answer of the card model fits secure messaging, so no card behaviour is cut out by a length |
| Card.AgreementOctets | src/se050/SE050.cpp:997-1033 | byte order of an agreement: the peer's key goes out and the secret comes back most significant octet first |
| Card.SignatureOctets | src/se050/SE050.cpp:1222-1240 | byte order of a signature: each half reversed on its own |
| Card.PublicKeyOctets | src/se050/SE050.cpp:961-974 | byte order of a public key |
| Derivation.DerivationOctets | src/se050/SE050.cpp:324-336 | the 32 octets a key is derived from, by position |
| Derivation.DerivationsApart | src/se050/SE050.cpp:324-353 | no two derivations with different constant, length or context have the same input |
| Derivation.DeriveKey | src/se050/SE050.cpp:324-336 | the firmware's derivation, filling its buffer in place, is the specified one |
| Derivation.ReferenceKdf | tools/scp03_rotate.py:59-71 | the host tool's derivation is the same one |
| Derivation.DerivedFrom | src/se050/SE050.cpp:338-355 | which static key, constant and length each session key and cryptogram is derived with |
| Derivation.OpeningOctets | src/se050/SE050.cpp:371-397 | the two exchanges of an opening octet by octet: the card's cryptogram has constant 0, only the host's with constant 1 and its C-MAC is accepted, and the channel starts with that MAC and counter 0 |
| ChannelProtocol.SecureOutcome | src/se050/SE050.cpp:554-676 | one wrapped command under any loss or reset keeps host and card in step or closes the channel; the card executes it once or not at all; the caller sees exactly the card's answer or a closed channel, never a false 9000 |
| ChannelProtocol.SecureRefuses | src/se050/SE050.cpp:554-592 | with the channel closed or data that cannot be wrapped nothing leaves the host and no data is returned; the second case closes the channel because the counter has moved |
| ChannelProtocol.DirectOutcome | src/se050/SE050.cpp:780-830 | an applet command sent straight through the channel has exactly the applet's effect or none, and keeps step |
| ChannelProtocol.SessionOutcome | src/se050/SE050.cpp:678-726 | a command nested in the session has exactly the inner command's effect or none, through both framings, and keeps step |
| ChannelProtocol.TryOpenOutcome | src/se050/SE050.cpp:438-510 | an opening never leaves an open host out of step; it succeeds only under the card's own static keys, and does when nothing is lost |
| ChannelProtocol.PerformKeepsStep | src/se050/SE050.cpp:411-676 | every step (command, opening, selection) with any fault keeps the in-step invariant |
| ChannelProtocol.RunKeepsStep | src/se050/SE050.cpp:411-676 | in every run of steps with lost commands, lost responses and resets, an open host faces a card without a channel or with the same keys, chaining value and counter |
| Rotation.CbcOfOneBlock | src/se050/SE050.cpp:1385-1397 | one block of CBC under a zero IV is ECB, which is why driver and host tool compute the same component |
| Rotation.PutKeyOctets | src/se050/SE050.cpp:1376-1409 | the field and the expected echo octet by octet: version, types and lengths, each key under the old DEK, each check value |
| Rotation.BuildPutKeyData | src/se050/SE050.cpp:1376-1409 | the cursor-driven builder writes exactly the 70-octet PUT KEY field and the 10-octet expected echo, under the DEK given |
| Rotation.ReferencePutKeyData | tools/scp03_rotate.py:152-173 | the host tool's builder yields the same field and echo as the driver's for the same keys |
| Rotation.PutKeyAccepted | tools/scp03_rotate.py:152-173 | a card whose DEK the field was built under stores exactly the new keys and answers exactly the expected echo |
| Driver.Wire.Transceive | src/se050/SE050.cpp:179-233 | an APDU of up to 255 octets is one exchange, answered by the card or lost, as `Stack.LinkRealisesFate` proves of the block layer; a longer one never leaves |
| Driver.StripLoop | src/se050/SE050.cpp:667-672 | the backwards loop over the plaintext equals the functional strip |
| Driver.SE050.WrapCommand | src/se050/SE050.cpp:554-609 | counter, padding, ICV, chained MAC: the object's method produces the specified command and advances counter and chaining value and nothing else |
| Driver.SE050.ReadReply | src/se050/SE050.cpp:610-676 | every branch of the response path equals the specified reading, also over what the buffer held before; the session flag falls with the channel |
| Driver.SE050.SecureApdu | src/se050/SE050.cpp:554-676 | the whole method equals the two-party step on host and card state, under every schedule of faults |
| Driver.SE050.SessionApdu | src/se050/SE050.cpp:678-726 | a frame that does not fit is refused without touching the wire; one that fits costs one exchange with exactly the nested command's outcome |
| Driver.SE050.BuildFrame | src/se050/SE050.cpp:686-723 | the frame built piece by piece is the session frame, inside its buffer, and a frame is refused only if the channel would refuse it |
| Driver.SE050.TryOpenChannel | src/se050/SE050.cpp:438-510 | keeps step; opens exactly when its key set is the card's, if nothing is lost, in two exchanges, and stops after one when it is not; whatever opens is recorded as the set last opened with |
| Driver.SE050.OpenSecureChannel | src/se050/SE050.cpp:411-436 | tries OTP, bench and factory keys in turn; a channel it opens is under the chip's own keys, and on a healthy link it always opens one, after exactly one exchange for each set before the chip's |
| Driver.SE050.InterfaceResetWithRetries | src/se050/SE050.cpp:143-172 | fails exactly when four in a row go unanswered, and otherwise stops at the first that is answered |
| Driver.SE050.Open | src/se050/SE050.cpp:235-257 | up to four interface resets and applet selection; keys and objects are preserved under any fault, success on a healthy link, failure after exactly four resets on a silent one |
| Driver.SE050.IdentitySession | src/se050/SE050.cpp:780-849 | curves, authenticator and verified session: on a healthy link always ends live; an active session is left alone; objects are preserved under any fault |
| Driver.SE050.Recover | src/se050/SE050.cpp:860-887 | from any state, however lost, a healthy link ends in a live session without a power cycle; a chip silent for four resets is power-cycled exactly once, and if it answers from then on the session is live; under any fault keys, pairs and peers are preserved |
| Driver.SE050.EnsureSession | src/se050/SE050.cpp:889-896 | an active session costs no exchange, an open channel is kept; otherwise as recovery |
| Driver.SE050.ObjectExists | src/se050/SE050.cpp:898-916 | an answer of yes or no is R-MAC verified, comes from the host's own session and is true of the card at that moment; anything else is -1 |
| Driver.SE050.GenerateKey | src/se050/SE050.cpp:945-956 | may only be issued for an id the card holds no pair for; in a live session on a healthy link, with the id free and the curve there, it generates the pair; the new pair has this call's curve and policy |
| Driver.SE050.ReadPublicKey | src/se050/SE050.cpp:961-974 | a reported key is the object's; with one disturbance it fails exactly when this exchange is the one hit |
| Driver.SE050.LapForKey | src/se050/SE050.cpp:933-975 | one lap generates only after a verified answer of absent, and keeps every pair under any fault; a pair it adds has this call's curve and policy |
| Driver.SE050.KeyEnsure | src/se050/SE050.cpp:920-977 | no existing pair is ever replaced, under any fault; a reported key is the object's public key; on a healthy link it always reports one, generated if need be; with one disturbance it fails exactly when the generating or the reading exchange is the one hit (neither is retried); a pair it adds has the caller's curve and policy |
| Driver.SE050.X25519Ensure | src/se050/SE050.cpp:979-984 | a key it generates is on curve 41 and allowed to agree, so agreements with it succeed |
| Driver.SE050.Ed25519Ensure | src/se050/SE050.cpp:986-991 | a key it generates is on curve 40 and allowed to sign |
| Driver.SE050.X25519EcdhBytes | src/se050/SE050.cpp:993-1039 | returns false or the secret of this call's key and this call's peer, under any schedule; with one disturbance at any point and a healthy card after, it succeeds |
| Driver.SE050.PeerKeyWrite | src/se050/SE050.cpp:1041-1084 | success means the peer object holds this call's value; no pair changes under any fault |
| Driver.SE050.PreparePeer | src/se050/SE050.cpp:1128-1155 | ready means the peer object holds this call's value; it gives up exactly when the creation exchange is the one disturbed |
| Driver.SE050.LapWithObject | src/se050/SE050.cpp:1124-1175 | one lap agrees against this call's peer value only, never one left by an earlier call |
| Driver.SE050.X25519EcdhObject | src/se050/SE050.cpp:1098-1177 | returns false or the secret of this call's key and peer; with one disturbance it fails if and only if the peer object is missing and the exchange that creates it is the one hit; on a link that is healthy again it succeeds, from a closed channel too |
| Driver.SE050.X25519Ecdh | src/se050/SE050.cpp:1179-1192 | object form then inline form: one disturbance anywhere is healed, a closed channel is rebuilt, and the answer is right or absent; the object form is given up only by a success of the inline form, and with one disturbance exactly when that disturbance hits the creation of the peer object |
| Driver.SE050.LapForSignature | src/se050/SE050.cpp:1206-1246 | one lap signs this message or gives the channel up for the next |
| Driver.SE050.Ed25519Sign | src/se050/SE050.cpp:1194-1249 | returns false or this key's signature of this message; one disturbance anywhere is healed; a message over 200 octets is refused without touching the card |
| Driver.SE050.OpenSecurityDomain | src/se050/SE050.cpp:1452-1474 | reset, selection and channel: open only under the chip's own keys, and always on a healthy link |
| Driver.SE050.SendPutKey | src/se050/SE050.cpp:1481-1497 | whatever is lost the card ends with its old keys or the new ones, and with the new ones when it said so; components are under the DEK of the set that opened the channel; on a healthy link it succeeds; it says so exactly when the answer is 9000 with the ten expected octets |
| Driver.SE050.RotatePlatformKeys | src/se050/SE050.cpp:1435-1521 | never strands the chip: with losses and resets anywhere its keys stay a set the opener tries, success means they are the OTP-derived ones, a board that has those succeeds on a healthy link, and no key pair is lost; success of a rotation means that a channel was opened under the new keys; PUT KEY is issued at most once, and on a healthy link not to a chip that has the keys |
| Driver.SE050.Serve | src/se050/SE050.cpp:898-1249 | over every sequence of calls and every schedule of faults: a public key reported once is still that object's key at the end, and no object is ever reported two keys; every pair generated may do what its curve is for |
| Driver.SessionLaw | src/se050/SE050.cpp:678-726 | a 9000 the caller sees inside a session is the inner command's own, run in the host's session |
| Driver.FrameFitsIff | src/se050/SE050.cpp:686-722 | exact length law of session frames, both length encodings included |
| Driver.SigningFits | src/se050/SE050.h:137-140 | a signing frame fits exactly up to 207 octets of message, so none of the accepted 200 is refused below |
| Buffers.SessionBuffer | src/se050/SE050.cpp:686-692 | the check on the inner length keeps the whole frame inside `sessionBuf` and refuses nothing the channel would take |
| Buffers.PaddingBuffers | src/se050/SE050.cpp:571-590 | padded and encrypted data of every accepted payload fit `padBuf` and `encBuf` |
| Buffers.ChainedCmacBuffer | src/se050/SE050.cpp:358-369 | chaining value and MAC input fit the 304 octets, and Lc does not wrap |
| Buffers.CommandBuffer | src/se050/SE050.cpp:594-609 | every wrapped command fits `apduOut` and one length octet |
| Buffers.TransmitBuffer | src/se050/SE050.cpp:179-202 | every accepted APDU's block fits `txFrame` and its length octet is its length |
| Buffers.ReceiveBuffer | src/se050/SE050.cpp:110-139 | whatever the bus delivers stays inside `rxFrame` |
| Buffers.ResponseBuffers | src/se050/SE050.cpp:641-665 | an answer that passes the one length check fits `macBuf`, and its ciphertext rounded up to blocks fits `plainBuf` |
| Buffers.LinkAnswersAreChecked | src/se050/SE050.cpp:641-664 | no answer of the link fails those checks, so neither ever refuses one |
| Buffers.CallersBuffer | src/se050/SE050.cpp:667-675 | what is handed on never exceeds the caller's buffer, and the return value is its length |
| Buffers.SignBuffer | src/se050/SE050.cpp:1206-1221 | the signing data fit `12 + SIGN_MAX_MESSAGE` octets and fill them at the longest message |
| Buffers.AgreementBuffers | src/se050/SE050.cpp:1003-1014 | both agreements fill their buffers exactly |
| Buffers.PeerBuffer | src/se050/SE050.cpp:1050-1078 | creation and update of the peer object fit 64 octets |
| Buffers.PutKeyBuffers | src/se050/SE050.cpp:1481-1488 | PUT KEY data, expected echo and answer fit their buffers |
| Buffers.OpeningBuffers | src/se050/SE050.cpp:325-397 | derivation input and opening commands have exactly their buffers' sizes |
| Buffers.LengthChain | src/se050/SE050.cpp:554-726 | from session command to link block: whatever is accepted at the top fits every buffer below and no length octet on the way wraps |
| Link.ComputeCrc | src/se050/SE050.cpp:56-66 | the bitwise in-place loop equals the fold of the CRC register |
| Link.CrcDiffers | src/se050/SE050.cpp:56-66 | no two frames of any length that differ in one octet or in two adjacent ones share a CRC |
| Link.ResidueIff | src/se050/SE050.cpp:130-140 | a frame passes the check exactly when the register over all of it, CRC included, is one constant |
| Link.CheckValueOfDigits | src/se050/SE050.cpp:54-66 | the check value of CRC-16/X.25, byte-swapped as the link sends it |
| Link.ResetOctets | src/se050/SE050.cpp:143-148 | the interface reset on the wire: 5A CF 00 37 7F |
| Link.CorruptionDetected | src/se050/SE050.cpp:116-141 | corruption of one octet or two adjacent ones anywhere, the CRC octets included, is always caught |
| Link.CorruptFrameDropped | src/se050/SE050.cpp:116-141 | a response so corrupted outside the NAD and LEN octets is never returned |
| Link.ReceivedOrLost | src/se050/SE050.cpp:80-141 | one exchange over a bus that loses, truncates or distorts yields the card's block or nothing |
| Link.AnsweredOrLost | src/se050/SE050.cpp:179-233 | over such a bus a whole APDU exchange, extensions included, yields exactly the block the card sent last, or nothing: the two outcomes the driver's fault schedule has |
| Stack.LinkRealisesFate | src/se050/SE050.cpp:80-233 | whatever such a bus does, what the link returns and what happens to the chip are an exchange of the driver's wire under some fate: the chip's whole answer, or nothing |
| Link.IBlockWellFormed | src/se050/SE050.cpp:186-202 | a block that is sent starts 5A and the sequence bit, announces its length, carries the APDU and passes the CRC check |
| Link.EndlessExtension | src/se050/SE050.cpp:204-222 | a card that asks for time forever costs exactly 21 exchanges and yields nothing |
| Link.T1.Xfer | src/se050/SE050.cpp:80-141 | header polling, body read and CRC check hand on exactly the accepted frame of this exchange |
| Link.T1.ResetInterface | src/se050/SE050.cpp:143-172 | sends that frame until it is answered, four times at most; only an answer starts the sequence over, and its payload is the answer-to-reset |
| Link.T1.GrantExtensions | src/se050/SE050.cpp:204-222 | the extension loop equals its recursive specification in result and number of exchanges; every frame it sends is 5A E3 01 and the time the card asked for in the answer before (1 if it named none), with its CRC |
| Link.T1.Transceive | src/se050/SE050.cpp:179-233 | at most 21 exchanges per APDU, the sequence bit flips exactly when a block was sent, and the payload is that of the frame kept; every further frame is such a grant |
| LoRa.Interface.Loop | src/LoRaInterface.cpp:116-156 | the receiving method equals one step of the reassembly function |
| LoRa.Interface.SendOutgoing | src/LoRaInterface.cpp:184-217 | the frames put on air are exactly those of the packet, each of which may fail to transmit on its own; success means all went, and the 8-bit counter moves once per split packet regardless |
| LoRa.FrameOctets | src/LoRaInterface.cpp:184-217 | up to 254 octets in one frame, up to 508 in two, none longer than 255; the two share a header, and the octets behind the headers are the packet's |
| LoRa.HeaderIs | src/LoRaInterface.cpp:116-131 | split flag and number are bits 08 and 07 of the header octet |
| LoRa.SplitHeaderIs | src/LoRaInterface.cpp:192-200 | the header of a split packet is the random nibble, 08 and the number, or-ed together |
| LoRa.OnePacket | src/LoRaInterface.cpp:134-156 | one packet, any of its frames lost, delivers that packet or nothing, and keeps the receiver's invariant |
| LoRa.DeliversExactly | src/LoRaInterface.cpp:134-156 | with one transmitter and received split frames fewer than 8 split packets apart, exactly the packets that arrived whole are delivered, once, in order, from any counter value |
| LoRa.OnePacketFrom | src/LoRaInterface.cpp:134-156 | one packet, halves tracked: it delivers itself or nothing, unless it meets a held half with its number; then what is delivered is spliced |
| LoRa.NothingSplicedIff | src/LoRaInterface.cpp:134-156 | exact condition over every history and every loss: no delivered packet is spliced if and only if no received split frame meets a held half sent a multiple of 8 split packets before, and then exactly the whole packets come out |
| LoRa.CloseIsSpaced | src/LoRaInterface.cpp:134-156 | fewer than 8 apart implies that condition |
| LoRa.LosslessDelivers | src/LoRaInterface.cpp:134-209 | without loss every packet of 1..508 octets is delivered exactly once, in order |
| LoRa.SpliceIff | src/LoRaInterface.cpp:138-152 | tightness: two half-lost packets with n lost between them are spliced exactly when n + 1 is a multiple of 8 |
| Hdlc.Refines | src/TCPClientInterface.cpp:100-138 | on every octet stream the bounded streaming decoder delivers exactly: split at flags, unescape, keep the sizes in (HEADER_MINSIZE, HW_MTU] |
| Hdlc.BufferBounded | src/TCPClientInterface.cpp:128-137 | the receive buffer never exceeds twice the MTU |
| Hdlc.EscapeInverse | src/TCPClientInterface.cpp:145-156 | stuffed data has no flag octet and unescapes to the original (section 4.2 of RFC 1662) |
| Hdlc.MaskedIs | src/TCPClientInterface.cpp:126-131 | the mask is `^ 0x20` on every octet; 7E becomes 5E and 7D becomes 5D |
| Hdlc.EncodedExample | src/TCPClientInterface.cpp:140-157 | a packet of both special octets, on the wire |
| Hdlc.DeliveredSized | src/TCPClientInterface.cpp:100-110 | from any state, on any stream, everything delivered is longer than the minimum and at most the MTU |
| Hdlc.DeliversAfterAnything | src/TCPClientInterface.cpp:100-138 | from any receiver state every complete frame fed afterwards is delivered in order, after at most one stray delivery |
| Hdlc.RoundTrip | src/TCPClientInterface.cpp:100-156 | any sequence of packets of valid size survives encoder and decoder unchanged |
| Hdlc.TcpClient.FeedByte | src/TCPClientInterface.cpp:100-138 | the object's step equals the decoder step |
| Hdlc.TcpClient.ReadAvailable | src/TCPClientInterface.cpp:84-98 | reading octet by octet equals the decoder over the whole buffer |
| Hdlc.TcpClient.FrameFor | src/TCPClientInterface.cpp:140-157 | the appending loop builds exactly the encoded frame |
| Picobin.Parse | src/Picobin.cpp:34-70 | the firmware's one-pass parser accepts exactly the well-formed blocks and keeps exactly their last items |
| Picobin.FindFirst | src/Picobin.cpp:72-86 | finds the first well-formed block of the searched 4096 octets, or none |
| Picobin.FollowLoop | src/Picobin.cpp:87-106 | the pointer walk visits exactly the blocks of the closed loop and keeps its last IMAGE_DEF |
| Picobin.Inspect | src/Picobin.cpp:72-115 | succeeds exactly on a closed loop, and reports its last IMAGE_DEF |
| Picobin.PayloadsInside | src/Picobin.cpp:99-113 | every octet of version and public key read after the walk lies inside the image |
| Picobin.BlockLoopIsLoop | src/Picobin.cpp:77-110 | a loop found has at most 16 well-formed blocks at pairwise distinct offsets, and its last link returns to the first |
| Picobin.BlockOctets | src/Picobin.cpp:34-70 | the block read at an offset is exactly the one spelled there: markers, items one behind the other with their headers, and a link in the signed 32-bit range that is congruent to its four octets |
| Picobin.BlockLoopIff | src/Picobin.cpp:72-106 | the list of blocks both readers visit is exactly the loop that is there: at most 16, the first the first well-formed one at a multiple of four below 4096, each linked to the next and only the last to the first |
| Picobin.TwoBlocksLoop | tools/picobin.py:70-98 | a concrete image of two blocks, the second linking back over 20 octets: both are visited and the second boots |
| Picobin.SmallestIsLoop | tools/picobin.py:48-98 | a concrete 20-octet image that both readers accept: one IMAGE_DEF linked to itself |
| Picobin.ParseBlock | tools/picobin.py:48-73 | the host tool's parser accepts exactly the same blocks, with the full item list |
| Picobin.BlockLoopList | tools/picobin.py:76-98 | the host tool visits the same blocks in the same order as the firmware, on every octet string |
| Picobin.SignedImageDef | tools/picobin.py:101-107 | picks the same last IMAGE_DEF, if it has a SIGNATURE item |
| Picobin.SignaturesAgreeIff | tools/picobin.py:151-157 | the two readers find the same public key exactly when every 33-word SIGNATURE item is the first SIGNATURE item of the block |
| Picobin.VersionsAgreeIff | tools/picobin.py:160-165 | the two readers find the same version exactly when there is at most one VERSION item |
| Picobin.VersionsDisagree | tools/picobin.py:160-165 | it happens: an image both readers boot, of which the firmware reads version 4.3 and the tool 2.1 |
| Picobin.SignaturesDisagree | tools/picobin.py:151-157 | it happens: an image both readers boot, in which the firmware finds a signature and the tool none |
| Picobin.ReadersAgree | tools/picobin.py:151-165 | with no repeated item type and a 33-word signature the two report the same signed image, key octets and version |
| Ota.Updater.Begin | src/Ota.cpp:121-149 | boot: load, count a trial boot, roll back past the limit; equals the boot step, also when power is cut before the save |
| Ota.Updater.RollbackNow | src/Ota.cpp:153-172 | stages the previous image and records it, or fails when there is none or it cannot be staged; equals the rollback step, also when cut between the two writes |
| Ota.Updater.ReceiveBody | src/Ota.cpp:242-326 | turn by turn with short reads, idle time, a lost client and a write that fails: the file is the whole body exactly on acceptance and gone at every other exit; only a power loss leaves a part |
| Ota.Updater.ConfirmTrial | src/Ota.cpp:174-187 | confirms only from the boot on trial; equals the confirm step |
| Ota.Updater.HandleUpload | src/Ota.cpp:367-414 | file moves, body and staging of an upload, in success and in each way to fail, equal the upload step that the run theorems are about |
| Ota.RunHolds | src/Ota.cpp:121-217 | the invariant over disk, record and history is kept by every run of boots, power cuts, confirmations and uploads, successful ones during a trial included |
| Ota.TrialSafety | src/Ota.cpp:121-187 | in every run: at most three trial boots, Confirmed only on record for the image that booted on trial, and a machine that came up rolled back runs exactly what the upload kept to fall back to |
| Ota.RollbackRestoresBase | src/Ota.cpp:121-172 | in every run in which no power loss cuts an upload off, a machine that came up rolled back runs exactly the image that was running when the candidate was uploaded |
| Ota.NeverConfirmed | src/Ota.cpp:121-172 | an image that never confirms is gone after at most four restarts: the next boot runs the kept fallback exactly, else the update is recorded Failed; from wherever a power loss left the trial |
| Ota.UploadStarts | src/Ota.cpp:367-414 | a successful upload starts a fresh trial; its fallback is what runs now exactly when no part that a power loss cut off was set aside, or that part is what runs now |
| Ota.CutOffUploadSpoilsFallback | src/Ota.cpp:245-285 | the failing family: a power loss while a body streams, then an upload that succeeds and never confirms, rolls back to the part that came of the first |
| Ota.CutOffUploadHappens | src/Ota.cpp:367-376 | it happens: from a fresh board, one update, a power loss in the next upload, another upload that never confirms; the node ends on the cut-off part |
| Ota.UploadDuringTrialHappens | src/Ota.cpp:367-400 | it happens: an upload refused during the trial of a second update rolls back to the candidate |
| Ota.UploadBeforeRebootHappens | src/Ota.cpp:400-414 | it happens: an upload refused in the reboot window lets the old image be confirmed as the update |
| Ota.UploadWhilePending | src/Ota.cpp:367-414 | an upload while an update is pending puts the candidate in place of the fallback; the rollback promise survives exactly when nothing is kept, or the upload succeeds during the trial, or candidate and old image are the same |
| Ota.PendingEnds | src/Ota.cpp:121-172 | a pending record that nobody confirms ends on the previous file, or on Failed, whatever the image files hold, at any number of boots already used |
| Ota.UploadWhilePendingEnds | src/Ota.cpp:367-414 | the failing family, for every attempt at every boot of the trial and in the reboot window: the rollback then runs the candidate, and the exact condition under which that is what it should run |
| Ota.FailedUploadBeforeReboot | src/Ota.cpp:400-414 | a second upload in the reboot window that fails: the next boot runs the old image (or a cut-off part) on trial, and it can be confirmed as the candidate |
| Ota.CapturedWhole | src/Ota.cpp:255-256 | head and tail buffers of a whole body are its first two octets and its trailer, short bodies included |
| Ota.CaptureChunk | src/Ota.cpp:276-283 | the octet loop keeps head and tail right for every cut of the body into pieces |
| Ota.StreamEnds | src/Ota.cpp:257-295 | the receive loop breaks exactly when some turn breaks, and completes exactly when none does and the announced size arrives |
| Ota.AcceptedIff | src/Ota.cpp:242-326 | an upload is accepted exactly when the file can be created, nothing breaks, all of the size arrives, and digest, signature, gzip magic and inflated size all pass |
| Ota.AcceptedMeans | src/Ota.cpp:242-326 | acceptance written out, in both directions: what held in each turn, that the digest is the declared one, that a signature, if there was one, is by a boot key over that digest, the two gzip octets, and a size in the last four octets that is not zero and fits |
| Ota.ForgedLeavesNothing | src/Ota.cpp:297-310 | an upload with another digest, or with a signature that no boot key made, leaves the running image, the record and the pending command as they were, and no image file |
| Ota.RefusedLeavesNothing | src/Ota.cpp:384-400 | every body that is not accepted leaves the running image, the record and the pending command as they were, and no image file, except that a power loss leaves the part that had come |
| Ota.ConfirmEnds | src/Ota.cpp:174-187 | a confirmation records Confirmed with count 0, drops the fallback and takes the boot off trial; any other boot changes nothing |
| Ota.ChunkingIrrelevant | src/Ota.cpp:257-295 | the verdict on a body that arrived does not depend on how it was cut |
| Ota.Updater.ChecksPass | src/Ota.cpp:297-325 | the four checks, on the captured head and tail, accept exactly the acceptable bodies |
| Settings.LoadPrint | src/NodeSettings.cpp:99-189 | round trip: what is saved is what the next boot loads, values, override flags and trial state |
| Settings.LinesRead | src/NodeSettings.cpp:99-156 | what each line of the file sets, key by key, and how its text is taken |
| Settings.AddressLinesRead | src/NodeSettings.cpp:99-156 | what each of the four address lines of the file sets, and how its text is taken |
| Settings.TakesTrial | src/NodeSettings.cpp:99-156 | what the two trial lines of the file set |
| Settings.LinesWritten | src/NodeSettings.cpp:158-189 | the lines a save writes, spelled out |
| Settings.NumbersRead | src/NodeSettings.cpp:113-147 | what strtoul and strtol make of any number, saturation, minus and the cast to an octet included |
| Settings.LoadedStaticHasAddress | src/NodeSettings.cpp:99-156 | whatever the file says, static mode is loaded only with an address, and nothing else is changed for it |
| Settings.KeyOrderIrrelevant | src/NodeSettings.cpp:321-387 | bodies with the same pairs in any order stage the same proposal or are both refused |
| Settings.RequestOrderIrrelevant | src/NodeSettings.cpp:294-463 | the outcome of a PUT does not depend on the order of its keys |
| Settings.PutSets | src/NodeSettings.cpp:321-437 | what a PUT leaves in each field it names: the value of its last pair with that key, converted, within the written-out range, `ip_mode` static exactly for "static"; and which overrides it sets |
| Settings.PutKeeps | src/NodeSettings.cpp:321-437 | a PUT leaves every field it does not name as it was, and overridden if it was |
| Settings.StagedIff | src/NodeSettings.cpp:321-387 | the pairs are staged exactly when each has one of the ten keys and a value in that key's range |
| Settings.PutPassesIff | src/NodeSettings.cpp:294-437 | a PUT passes exactly when it names something, its pairs are staged, it does not come to a static mode without address, and the radio takes a changed power |
| Settings.ModesNamed | src/NodeSettings.cpp:360-372 | an address with static mode goes on trial; dhcp with an address set does not |
| Settings.NextHolds | src/NodeSettings.cpp:64-463 | every boot, PUT, confirmation, timeout, reset and power loss keeps the file equal to RAM and the settings good |
| Settings.RunHolds | src/NodeSettings.cpp:64-463 | over every run reloading the file reproduces all settings, and they stay good |
| Settings.FromBlank | src/NodeSettings.cpp:51-463 | from no file, in every run: a field not overridden has its default, static mode has an address, and only a static address is on trial |
| Settings.UnreachedReverts | src/NodeSettings.cpp:75-96 | progress: boots in a row that nobody reaches end, after exactly the boots the trial has left, in DHCP mode with every address field kept |
| Settings.UnprovenStep | src/NodeSettings.cpp:64-463 | any event that does not prove the address keeps the address fields and uses up a boot of the trial exactly when it boots on it, except that the timeout of a trial boot uses up all |
| Settings.StaticBootsBounded | src/NodeSettings.cpp:75-96 | in every run in which nobody reaches the API and no request changes the addressing, with timeouts, other requests, power losses and repeated boots anywhere, a static address is booted at most NODE_IP_TRIAL_BOOTS times and every address field is kept |
| Settings.TrialEndsInDhcp | src/NodeSettings.cpp:236-267 | the boot after the last, and the timeout of any trial boot, leave DHCP mode in the file with the addresses kept |
| Settings.ConfirmEnds | src/NodeSettings.cpp:247-256 | a confirmation takes the address off trial in RAM and file and changes nothing else |
| Settings.NotByTheSameBoot | src/NodeSettings.cpp:427-450 | after a request that changed the addressing no sequence of events in the same boot confirms it or times it out |
| Settings.PutEndsTrial | src/NodeSettings.cpp:439-450 | a request that changes the addressing takes this boot off trial and starts the new trial from zero |
| Settings.FailureChangesNothingIff | src/NodeSettings.cpp:294-463 | a PUT that reports failure leaves everything as it was exactly when validation or the radio refused it or it asked for what was there |
| Settings.FailedSaveHappens | src/NodeSettings.cpp:397-454 | it happens: an interval of 60 seconds and a file that cannot be opened; the PUT reports failure and the new interval is in RAM |
| Settings.NodeSettings.Load | src/NodeSettings.cpp:99-156 | the line loop over the file equals the loader, numbers as strtoul and strtol read them, blanks, signs and saturation included |
| Settings.NodeSettings.Save | src/NodeSettings.cpp:158-189 | the file written is the printed settings, and is untouched when it cannot be opened |
| Settings.NodeSettings.Stage | src/NodeSettings.cpp:321-387 | the validating loop changes nothing and proposes exactly the fold of the pairs |
| Settings.NodeSettings.Commit | src/NodeSettings.cpp:397-450 | field by field, the commit leaves exactly the named fields replaced and a changed static configuration on trial |
| Settings.NodeSettings.ApplyJson | src/NodeSettings.cpp:294-463 | the whole PUT equals the request step, in every failure branch too |
| Settings.NodeSettings.Begin | src/NodeSettings.cpp:64-97 | the boot equals the boot step, whether or not the file can be written: count, revert past the limit, or drop a trial with nothing static |
| Settings.NodeSettings.Confirm | src/NodeSettings.cpp:247-256 | only the boot on trial confirms; a save that fails leaves the file as it was |
| Settings.NodeSettings.Timeout | src/NodeSettings.cpp:258-267 | only the boot on trial times out; it leaves the reverted settings in the file, or the file as it was when the save fails |
| Settings.NodeSettings.RevertIpToDhcp | src/NodeSettings.cpp:236-245 | dhcp becomes explicit, addresses stay, the trial is recorded reverted |
| Settings.NodeSettings.Reset | src/NodeSettings.cpp:191-208 | all overrides go, the file too unless its removal fails, and the radio is told the default power |
| Otp.BitsOnlyRise | src/OtpProvision.cpp:164-348 | in every run of commands, failed writes and resets no bit of any row is ever cleared |
| Otp.SecureBootNeverBricks | src/OtpProvision.cpp:213-308 | from blank OTP, under every sequence: once any copy of the secure-boot bit is set, the very command that set it ran from an image whose key of ours was then burned in a valid slot, and that key still is, never invalidated |
| Otp.ClosedOnlyUnderSecureBoot | src/OtpProvision.cpp:271-348 | slot closing, debug and boot-path disable and page locking are found only while running under secure boot, and came after the reset that first latched it, at which none had been done; page locking also after debug-off and a closed slot |
| Otp.ProtectedNext | src/OtpProvision.cpp:213-280 | no command revokes, overwrites or invalidates a protected key |
| Otp.StepBurns | src/OtpProvision.cpp:164-348 | every event burns no bits but its command's, written out for the critical row, the boot flags, the key flags and the page locks |
| Otp.PageGates | src/OtpProvision.cpp:310-348 | the boot pages' lock rows change only under secure boot, without debug, with a spare slot closed; the boot flags only under secure boot |
| Otp.FlagGates | src/OtpProvision.cpp:254-280 | the key flags change only over both our keys, each in its slot, or under secure boot |
| Otp.CritGates | src/OtpProvision.cpp:282-329 | the critical row changes only under secure boot, or before it with slot 0 valid and the running image's key in a valid slot |
| Otp.KeySlotGate | src/OtpProvision.cpp:213-252 | a key slot changes only by one of our fingerprints, and only when it does not read as written |
| Otp.SetBySecureBoot | src/OtpProvision.cpp:282-308 | only that command sets the bit, and only when the running image's key is protected |
| Otp.LatchedByReset | src/OtpVault.cpp:152-171 | running under secure boot now means one reset found the bit burned and latched it for the first time |
| Otp.CeremonyCompletes | docs/secure_boot.md:42-57 | the gates do not deadlock: with writes that take, the documented order from seed to page locks ends sealed, the seed present and locked, both keys valid |
| Otp.SeedNeverChanges | src/OtpVault.cpp:174-211 | a page that is not blank is never written again: a seed that reads as present never changes |
| Otp.TamperDetected | src/OtpVault.cpp:81-101 | any further bit burned into either half of a present seed makes the page read as corrupt |
| Otp.WriteSeedSucceedsIff | src/OtpVault.cpp:174-211 | reports success exactly when the page was blank and unlocked and both writes took, and then the seed reads back |
| Otp.SeedLockedOnlyWhenPresent | src/OtpVault.cpp:213-248 | from blank OTP the seed page is never locked over a blank, corrupt or half-written seed, soft-locking first included |
| Otp.VoteOutvotesOne | src/OtpVault.cpp:134-139 | one corrupted copy of three never changes the vote |
| Otp.VoteRises | src/OtpVault.cpp:134-139 | the vote never loses a bit when copies only gain bits |
| Otp.Console.SetBits | src/OtpProvision.cpp:164-200 | the read, OR, write, read-back loops equal the flag step; a good write always reads back |
| Otp.Console.ReadSeedPage | src/OtpVault.cpp:81-101 | the two row loops report blank, corrupt, present or unreadable exactly as the page specification does |
| Otp.Console.StoreSeed | src/OtpVault.cpp:174-211 | only a blank page is written, the complement is of the rows as programmed, and success means the read-back; exactly the step of the run theorems |
| Otp.Console.LockSeed | src/OtpVault.cpp:213-248 | an unprovisioned page is never locked, a locked one is left alone, and a good write reads back; exactly the step of the run theorems |
| Otp.Console.StoreBootkey | src/OtpProvision.cpp:213-252 | only one of our fingerprints goes in, and never over a slot that reads as written |
| Otp.Console.MarkKeysValid | src/OtpProvision.cpp:254-269 | slots are marked valid only when key 0 is burned in slot 0 and key 1 in slot 1, and exactly as the run theorems assume |
| Otp.Console.CloseSpareSlots | src/OtpProvision.cpp:271-280 | slots 2 and 3 are invalidated only under secure boot, and exactly as the run theorems assume |
| Otp.Console.TurnOnSecureBoot | src/OtpProvision.cpp:282-308 | every refusal (already on, slot 0 not valid, image not ours, its key not burned and valid) leaves the memory alone; otherwise exactly the step of the run theorems |
| Otp.Console.LockDown | src/OtpProvision.cpp:310-329 | debug bits and boot-path bits are both attempted even when the first fails, and success is reported exactly when both were burned or already set |
| Otp.Console.LockPages | src/OtpProvision.cpp:331-348 | pages 1 and 2 are locked only behind all three gates, and exactly as the run theorems assume |

## Left out

- Forged or stale answers, and an R-MAC failure whose status octets read 9000: frames are lost, or corrupted so that the CRC drops them; the card is the only speaker.
- The re-entrancy guard and the aliasing of the shared buffers; buffers are values here, and `Buffers` bounds what goes into each.
- Randomness, clocks, I2C, SPI, Ethernet, RadioLib, LittleFS, watchdog and bootrom calls: parameters or steps that may fail.
- AES, SHA-256, Curve25519 and Ed25519 themselves; key derivation from the OTP seed (the candidate key sets are given).
- Importing an identity, deleting objects, `probe`, benchmarks, fault injection, console, logging, JSON rendering.
- `src/HttpApi.cpp`, `src/Ntp.cpp`, `src/EthernetLink.h`, `src/NodeProvisioning.cpp`, `src/main.cpp` and the network tools: plumbing.
- Driver.SE050.X25519Ecdh: the healing clause assumes a usable peer object id (no key pair stored under it, curve created), because the source does not handle that case either.
- Ota.TrialSafety: runs without an upload that fails during a trial or any upload while a staged image waits for its reboot (`UploadWhilePending` says exactly what those do), without a state file that cannot be written, without a reset between `commit` and `save` of an upload, and without a staging that fails when repeated after a power loss; a reset while a body streams is inside the runs.
- Ota: the header checks of an upload and the text of the state file; the digest and the signature check are functions of the octets.
- LoRa.Interface.Loop: radio status, RSSI and interrupts; frames arrive whole.
- Picobin: load map, hash and signature checks.
- Settings.NodeSettings.ApplyJson: JSON parsing and its conversions are given per pair; error texts, the list of changed keys, the reboot-pending flag and change notifications are not modelled.
- Settings.RunHolds: runs in which every save and removal succeeds.
- Settings: `staticAddress`, which only fills in defaults.
- Otp: reads of an unlocked page succeed; the bootrom refuses a write that would clear a bit; register field positions are named constants, and the vote that decodes the eight critical rows is a function of which only the laws above are used; hex parsing and the trailing `!` of a command.
