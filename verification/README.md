# CIVG: verified models of the update gateway's core

CIVG updates vehicles over the air. This project models the parts of it where a mistake is hard to see and expensive,
and proves what they are for. It is plain Dafny; `dafny verify dfyconfig.toml` checks all of it.

- **Web socket framing** (`WsMask`, `WsReceive`, `WsSend`, `WsRoundTrip`, `WsOverhead`, `WsOldFrames`, `WsNewFrames`,
  `WsAgreement`, `WsExchange`, `WsLongFrames`, `WsClose`, `WsConnection`): the writer and both byte-at-a-time receive machines for
  revisions 4, 5, 6, 7, 8 and 13 (RFC 6455, sections 5.2 and 5.3). The in-place machine refines a step function; what a
  server writes its client delivers, and what a client writes its server delivers exactly when the masks agree.
- **JSON** (`Json`, `JsonParser`, `JsonBuffers`, `JsonPrinter`, `JsonRoundTrip`, `JsonStrings`, `JsonMinify`,
  `JsonGrammar`, `JsonComments`): parser, printers with their buffers, the two-pass string code, UTF-16 to UTF-8
  transcoding (RFC 3629) and the in-place minifier, on printed text and on every text of the grammar of RFC 8259.
- **Crash-recoverable installation** (`Versions`, `Power`, `RpManager`, `DownloadMgr`, `Core`): storage is a set of keys
  with atomic writes, each of which may fail, and the power may go between any two effects. What the three layers
  persist is enough to go on, and where it is not the exact circumstances are stated.
- **Sender queue** (`MsgQueue`, `SenderQueue`): one worker and any number of pushers over two locks, in every
  interleaving.
- **AMQP 0-9-1** (`Bytes`, `AmqpDecoder`, `AmqpBody`, `AmqpPool`, `HostCheck`): the incremental frame decoder, body
  splitting and reassembly end to end, the page allocator, and host name matching (RFC 6125, section 6.4.3).
- **Hashes** (`Padding`, `Sha1`, `Md5`, `Sha1Example`, `Md5Example`): the streaming implementations against the
  definitions of FIPS 180-1 and RFC 1321, and the definitions against a digest of each.

Objects whose methods change fields or buffers are classes proved against specification functions; what those functions
mean is proved in lemmas. Calls into foreign code and system allocation are parameters, or lists that say what becomes
of each of them. In the crash-recoverable layers a list of fates does so for every effect, so that a run with a certain
failure can be named; `Flow` values tell a normal end from a power cut.

Where the code falls short of what one would expect, the model keeps the code and states when it does meet the
expectation:

- `WsLongFrames.LongFrames`: the masking loop counts in an int, so a masked frame of 2^31 octets or more is handled as
  sent only under a mask of zeros, which is the nonce from revision 5 on and the handshake key in revision 4.
- `WsLongFrames.DefeatedMask` and `WsLongFrames.SecondFrameLost`: a server of revision 4 to 6 that defeats the mask of its
  client still takes it off, but from the index that the last frame left. A masked frame arrives from a multiple of the
  mask's period, 4 octets or in revision 4 20, and otherwise only under a mask that repeats at that shift.
- `WsLongFrames.UnmaskedClient` and `WsLongFrames.UnmaskedLost`: a server of revision 4 takes a mask off even from what
  its client did not mask, which arrives under a handshake key of zeros, and in a frame longer than 20 octets only then.
- `WsAgreement.ServerReceives` has the exact condition for every frame: both masks agree on each of its octets, on the
  first one in the low four bits.
- `AmqpPool.LongEnough`: rounding a request up wraps for the seven largest sizes.
- `Core.Orchestrator.Init` and `Core.ReplacedDownload`: a configuration message with nothing to upgrade that arrives
  during a download leaves the DOWNLOAD state persisted, and the next start finds no update to resume.
- `RpManager.Manager.OneAttempt`, `RpManager.MissedFile` and `RpManager.MissedTwo`: a cut before the first rollback step
  is journalled leaves the journal of the update phase to the rollback, which can then report success without undoing the
  last touched file or two.
- `RpManager.Manager.Finalize` and `RpManager.ConfigLeft`: the journal is removed before the new configuration is
  written, so a failure or cut between the two leaves every file installed under the old configuration, for good.
- `AmqpBody.Sender.SendFrame`: a frame_max too small for the fixed fields of a frame, which nothing refuses, makes it
  write past the outbound buffer.
- `RpManager.Manager.ResumeRP`: two journal values send a resume outside the update files.
- `DownloadMgr.Manager.MarkDownloaded`, `DownloadMgr.StalePath` and `DownloadMgr.EarlySuccess`: results of storage writes
  are ignored, so after two failed ones a stale path can count as a completed file, and success be reported early.
- The server machine has no case for continuation frames and drops them; the client delivers them
  (`WsRoundTrip.DroppedRun`).
- xor_mask_04 masks with the handshake key; the per-frame key that is derived from the nonce is never used.

## Model

| member | source | states |
|---|---|---|
| WsExchange.AllMessages | modules/3rd_party/libwebsockets/parsers.c:1573-1882 | any sequence of messages that arrive, each at the mask index that the one before has left, from either end to the other and in every supported revision, is delivered message by message with its payload and opcode, and the receiving machine ends in the state for a new frame with an empty buffer |
| WsExchange.OrdinaryAllReach | modules/3rd_party/libwebsockets/parsers.c:1573-1882 | every sequence of messages arrives from a client that masks with the key of a server that does not defeat the mask, in frames below 2^31 octets, from a client of revision 5 or later that does not mask, and from a server |
| WsExchange.OneMessage | modules/3rd_party/libwebsockets/parsers.c:1573-1882 | a message that arrives has its effect, and a text or binary message has its effect only if it arrives; what a server writes always arrives |
| WsAgreement.ServerReceives | modules/3rd_party/libwebsockets/parsers.c:299-836 | for every pair of masks, keys, mask index and length the server machine, fed the client writer's octets, has exactly the effect of the payload if the masks of both ends agree on the frame (from revision 7 on: if the payload is unmasked or completely masked), and for text and binary only if they do |
| WsAgreement.AlikeExactlyWhen | modules/3rd_party/libwebsockets/parsers.c:1785-1838 | whether the server reads the frame that was meant depends on the masks alone: they have to agree on every octet, on the first one in its low four bits |
| WsAgreement.MaskedFirstAt | modules/3rd_party/libwebsockets/parsers.c:1799-1805 | the writer's loop combines octet j with its mask octet if its int counter reaches j, and leaves it alone otherwise |
| WsOldFrames.HandledExactly | modules/3rd_party/libwebsockets/parsers.c:312-785 | in revisions 4 to 6, whatever octets follow the nonce, a text or binary message is delivered and the machine ready for the next frame if and only if the octets come out of the server's mask as the frame of that message, but for the four high bits of the first |
| WsOldFrames.AlikeHandled | modules/3rd_party/libwebsockets/parsers.c:312-785 | octets that do come out so are handled as that frame, for every kind of frame, and leave the mask index where the next frame finds it |
| WsOldFrames.HeadRun | modules/3rd_party/libwebsockets/parsers.c:438-634 | for any octets the machine's run is decided by what the header at their front reads as |
| WsOldFrames.OnlyOneFrame | modules/3rd_party/libwebsockets/parsers.c:438-785 | whatever the header reads as, to deliver as much data as the frame carries, in the chunks of one message or more than 65660 octets of it, it has to announce just the payload behind it |
| WsOldFrames.SecondFrame | modules/3rd_party/libwebsockets/parsers.c:312-785 | a first frame that is shorter than that leaves too few octets for another header: two frames cost more, or break the 4096-octet chunks |
| WsOldFrames.ChunkBoundary | modules/3rd_party/libwebsockets/parsers.c:724-731 | chunks that begin the chunks of a longer text end at a full buffer |
| WsOldFrames.HeadReads | modules/3rd_party/libwebsockets/parsers.c:438-634 | octets are like the written frame exactly when they read as its header, the only one with that length, and its payload follows |
| WsRoundTrip.ClientReceives | modules/3rd_party/libwebsockets/parsers.c:839-1303 | the client machine, fed the server writer's octets, has the same effect, for every revision including the continuation frames that only the client delivers |
| WsRoundTrip.Chunks | modules/3rd_party/libwebsockets/parsers.c:708-831 | deliveries are non-empty, at most 4096 octets each, and put together they are the payload |
| WsRoundTrip.PayloadRun | modules/3rd_party/libwebsockets/parsers.c:708-731 | from any fill level of the receive buffer, masked payload octets are delivered as those chunks of the unmasked text and leave the machine ready for a new frame |
| WsRoundTrip.ControlRun | modules/3rd_party/libwebsockets/parsers.c:733-766 | the payload of a ping or pong is collected whole, never in pieces, and its one effect follows the last octet |
| WsRoundTrip.DroppedRun | modules/3rd_party/libwebsockets/parsers.c:724-785 | a frame with a number that neither end has a case for, or a continuation frame at the server, is consumed in full without any delivery |
| WsRoundTrip.HeaderRun | modules/3rd_party/libwebsockets/parsers.c:438-634 | the octets of every header the writer makes, of any length class, bring the machine to the payload with that length, opcode, final bit and mask bit |
| WsRoundTrip.LengthRun | modules/3rd_party/libwebsockets/parsers.c:540-634 | a two- or eight-octet length field, masked or not, is read as the number it spells |
| WsRoundTrip.NonceRun | modules/3rd_party/libwebsockets/parsers.c:312-436 | the four octets in front of a frame of revision 4 to 6 become the frame's masking nonce, with the all-zero case noticed |
| WsRoundTrip.KeyRun | modules/3rd_party/libwebsockets/parsers.c:677-706 | the four key octets of revision 7 and later become the masking key |
| WsRoundTrip.HandshakeKeyUnused | modules/3rd_party/libwebsockets/parsers.c:280-296 | with the revision 5 and later mask the handshake key has no influence |
| WsExchange.PingPong | modules/3rd_party/libwebsockets/parsers.c:513-527 | a client ping of 1 to 125 octets that arrives makes the server answer with exactly that payload, the client reports exactly that payload, and the client's count of pings against pongs is what it was before |
| WsExchange.LongControlRefused | modules/3rd_party/libwebsockets/parsers.c:513-527 | a ping or pong with an extended length field closes the connection in revision 7 and later, on either side, whatever follows |
| WsClose.ClearCloses | modules/3rd_party/libwebsockets/parsers.c:1195-1217 | a close frame in clear with 1 to 125 octets, numbered 1 before revision 7 and 8 from there on, makes a client of any revision and a server from revision 7 on answer with exactly that payload and close, whatever follows |
| WsClose.MaskedCloses | modules/3rd_party/libwebsockets/parsers.c:733-750 | so does the masked close frame of a client at a server from revision 7 on, under every key |
| WsClose.OldMaskedCloses | modules/3rd_party/libwebsockets/parsers.c:733-750 | and in revisions 4 to 6, where header and payload are both masked, from whatever index the server starts |
| WsClose.ClientRefuses | modules/3rd_party/libwebsockets/parsers.c:839-1150 | the first two octets of a frame close an idle client if and only if the opcode is reserved or the mask bit set before revision 7, a control frame has an extended length, or it is a close frame without payload, which alone is answered |
| WsLongFrames.LongFrames | modules/3rd_party/libwebsockets/parsers.c:1799-1844 | in every supported revision a masked text or binary frame is handled as sent if and only if its payload is shorter than 2^31 octets, since the masking loop counts in an int, or its mask is all zero: the nonce from revision 5 on, the handshake key in revision 4; the same goes for its data alone, whatever became of the header |
| WsLongFrames.LongMasks | modules/3rd_party/libwebsockets/parsers.c:1799-1805 | on a frame of 2^31 octets or more of revision 4 to 6 only a zero mask agrees with what was put on, from whatever index the server starts |
| WsLongFrames.PayloadAgrees | modules/3rd_party/libwebsockets/parsers.c:312-785 | if all the data of a long frame was delivered, the masks agree on it, whatever became of the header |
| WsLongFrames.DefeatedMask | modules/3rd_party/libwebsockets/parsers.c:367-411 | a server that defeats the mask of its client receives a masked frame if its mask index is a multiple of the period, 4 from revision 5 on and 20 in revision 4, and a frame longer than the period exactly when the mask repeats at that shift |
| WsLongFrames.SecondFrameLost | modules/3rd_party/libwebsockets/parsers.c:367-411 | such a server of revision 5 or 6 receives a first text of one octet and loses the second, of three or more under the key 1, 0, 0, 0 |
| WsLongFrames.UnmaskedClient | modules/3rd_party/libwebsockets/parsers.c:713-716 | a server of revision 4 receives an unmasked frame if the handshake key is all zero, and a frame longer than 20 octets only then |
| WsLongFrames.UnmaskedLost | modules/3rd_party/libwebsockets/parsers.c:713-716 | under a key whose second octet is not zero it loses every text and binary message that is not masked |
| WsNewFrames.NewFrameExactly | modules/3rd_party/libwebsockets/parsers.c:1799-1844 | from revision 7 on the frame is always taken apart, and handled as sent, with the payload as its data, if it is unmasked, its key is zero or its payload is shorter than 2^31 octets; text and binary only then |
| WsNewFrames.RemaskedIsSame | modules/3rd_party/libwebsockets/parsers.c:1799-1812 | octets of which only a part was masked come out the same only if that part is all or the mask is all zero |
| WsOverhead.RunSpent | modules/3rd_party/libwebsockets/parsers.c:312-831 | over any run the books of delivered octets and overhead hold: 6 octets for a frame of up to 125, 8 for one of up to 65535, 14 for a longer one |
| WsOverhead.FrameCost | modules/3rd_party/libwebsockets/parsers.c:312-831 | whole frames leave at least 6 octets undelivered, at least 8 when there are more than 125 octets of data and at least 9 when there are more than 65535 |
| WsRoundTrip.UserDataOf | modules/3rd_party/libwebsockets/parsers.c:768-785 | deliveries of one frame, put together, are the concatenation of its chunks |
| WsMask.MaskedInvolution | modules/3rd_party/libwebsockets/parsers.c:274-296 | each of the three mask functions takes its own mask off again when both ends start at the same index |
| WsMask.MaskedAppend | modules/3rd_party/libwebsockets/parsers.c:274-296 | masking can be interrupted anywhere and resumed with the index it left |
| WsMask.ZeroMaskKeeps | modules/3rd_party/libwebsockets/parsers.c:1827-1844 | an all-zero nonce or handshake key, or no mask, leaves octets alone |
| WsMask.Masked05At | modules/3rd_party/libwebsockets/parsers.c:290-296 | octet j is combined with nonce octet j modulo 4, although the index is an unsigned char that wraps |
| WsMask.Masked04At | modules/3rd_party/libwebsockets/parsers.c:280-288 | octet j is combined with octet j modulo 20 of the handshake key |
| WsMask.XorTwice | modules/3rd_party/libwebsockets/parsers.c:274-296 | masked twice, an octet is what it was exactly when the two mask octets are equal |
| WsMask.OtherMaskChanges | modules/3rd_party/libwebsockets/parsers.c:280-296 | a nonce that is not all zero changes any four consecutive octets, a handshake key any twenty |
| WsMask.XorLaws | modules/3rd_party/libwebsockets/parsers.c:274-296 | exclusive or on octets is its own inverse, and only zero leaves an octet alone |
| WsReceive.RunAppend | modules/3rd_party/libwebsockets/parsers.c:1307-1326 | the machines can be fed in any division: a run over a concatenation is the run over its parts |
| WsReceive.Step | modules/3rd_party/libwebsockets/parsers.c:299-1303 | one octet into either machine keeps the state well-formed: the buffer below 4096 octets, the index in range |
| WsConnection.Wsi.RxSm | modules/3rd_party/libwebsockets/parsers.c:299-1303 | the in-place machine makes exactly the step of the specification on every octet, with the same events and answers |
| WsConnection.Wsi.InterpretIncomingPacket | modules/3rd_party/libwebsockets/parsers.c:1307-1326 | the loop over a received packet makes exactly the specified run, up to the octet that closes |
| WsConnection.Wsi.Write | modules/3rd_party/libwebsockets/parsers.c:1573-1882 | the writer, filling header bytes in front of the payload and masking in place, sends exactly the specified frame and touches nothing else |
| WsConnection.Wsi.PutHeader | modules/3rd_party/libwebsockets/parsers.c:1632-1773 | the header octets stand right in front of the payload and nothing else in the buffer changed |
| WsConnection.Wsi.WriteClient04 | modules/3rd_party/libwebsockets/parsers.c:1789-1838 | header and payload are masked in place behind a fresh nonce |
| WsConnection.Wsi.WriteClient07 | modules/3rd_party/libwebsockets/parsers.c:1789-1844 | only the payload is masked, and the nonce goes between header and payload |
| WsConnection.Wsi.MaskInPlace | modules/3rd_party/libwebsockets/parsers.c:1799-1812 | the masking loop masks as many octets as its int counter reaches and leaves the rest of the buffer alone |
| WsConnection.Wsi.FrameMaskGenerate | modules/3rd_party/libwebsockets/parsers.c:1330-1366 | a fresh nonce is stored and the mask index restarts at zero |
| WsConnection.Wsi.XorMask | modules/3rd_party/libwebsockets/parsers.c:274-296 | one octet is masked and the index moves on with its wrap |
| WsConnection.Wsi.RxNew | modules/3rd_party/libwebsockets/parsers.c:312-348 | the first octet of a frame starts the header or the nonce, as the revision wants |
| WsConnection.Wsi.RxFirst | modules/3rd_party/libwebsockets/parsers.c:438-497 | opcode and final bit are taken from the unmasked octet, and a reserved old opcode closes |
| WsConnection.Wsi.RxLength | modules/3rd_party/libwebsockets/parsers.c:499-538 | the length octet selects the length class and refuses what the revision forbids |
| WsConnection.Wsi.RxLengthMore | modules/3rd_party/libwebsockets/parsers.c:540-634 | one octet of an extended length is shifted into place |
| WsConnection.Wsi.RxPayload | modules/3rd_party/libwebsockets/parsers.c:708-731 | one payload octet is unmasked, stored and counted, and a full buffer or the last octet spills |
| WsConnection.Wsi.RxSpill | modules/3rd_party/libwebsockets/parsers.c:724-831 | a spill delivers, answers or drops by opcode and empties the buffer |
| Sha1.HashPieces | modules/3rd_party/libwebsockets/sha-1.c:262-308 | for any division of a message over sha1_loop calls the digest is that of the whole message by the 80-word definition |
| Sha1.Context.Result | modules/3rd_party/libwebsockets/sha-1.c:287-308 | the digest is the standard's digest of everything absorbed, most significant octet of each word first |
| Sha1.Context.Loop | modules/3rd_party/libwebsockets/sha-1.c:262-285 | absorbing an input extends the message by exactly that input, across block boundaries, and counts its bits modulo 2^64 |
| Sha1.Context.Pad | modules/3rd_party/libwebsockets/sha-1.c:228-260 | the padding absorbed is the standard's, with one block or two as needed |
| Sha1.Context.PadZeros | modules/3rd_party/libwebsockets/sha-1.c:236-248 | zeros are filled up to octet 56 of a block, through a further block when fewer than eight octets are left |
| Sha1.Context.PutLength | modules/3rd_party/libwebsockets/sha-1.c:249-259 | the eight length octets complete the last block |
| Sha1.Context.Absorb | modules/3rd_party/libwebsockets/sha-1.c:276-283 | what is copied into the block buffer extends the message, and a full buffer becomes part of the chaining value |
| Sha1.Context.Step | modules/3rd_party/libwebsockets/sha-1.c:129-213 | a full buffer advances the chaining value by the standard's compression |
| Sha1.AllRounds | modules/3rd_party/libwebsockets/sha-1.c:173-204 | eighty rounds on sixteen words overwritten in a circle compute the rounds on the 80-word schedule |
| Sha1.Expand | modules/3rd_party/libwebsockets/sha-1.c:176-188 | the circular expression yields the next schedule word and leaves the other fifteen in their slots |
| Sha1.Slots | modules/3rd_party/libwebsockets/sha-1.c:178-179 | the slots 13, 8, 2 and 0 ahead in the circle are the words 3, 8, 14 and 16 back |
| Sha1.LoadWords | modules/3rd_party/libwebsockets/sha-1.c:135-171 | swapping octets in memory and loading words on a little-endian host reads big-endian words |
| Sha1.OneRound | modules/3rd_party/libwebsockets/sha-1.c:181-182 | one pass of the loop body is one round of the standard, with the constant from the table |
| Sha1.LengthOctet | modules/3rd_party/libwebsockets/sha-1.c:249-259 | a bit count reduced modulo 2^64 has the length octets of the full count |
| Sha1Example.DigestOfAbc | modules/3rd_party/libwebsockets/sha-1.c:228-308 | the digest of the three octets abc is the one that appendix A of FIPS 180-1 gives, by way of its 80 rounds |
| Padding.PaddingIsShortest | modules/3rd_party/libwebsockets/sha-1.c:229-248 | no shorter run of zeros reaches the length field |
| Md5.MD5 | modules/3rd_party/libwebsockets/md5.c:187-216 | for every input an int can measure the output is the digest of RFC 1321, computed through the buffered update and both padding updates |
| Md5.Process | modules/3rd_party/libwebsockets/md5.c:42-148 | the block function on 64-bit words that are never reduced agrees modulo 2^32 with the standard's 32-bit one |
| Md5.LowOperation | modules/3rd_party/libwebsockets/md5.c:51-53 | one P line, with the unmasked left shift in S, is one operation of the standard in the low 32 bits |
| Md5.LinesAgree | modules/3rd_party/libwebsockets/md5.c:62-140 | word, rotation and constant of all 64 P lines are those of the standard |
| Md5.LowAux | modules/3rd_party/libwebsockets/md5.c:60-123 | the four macros F, two of them rewritten to save an operation, are F, G, H and I bit by bit |
| Md5.LowRotate | modules/3rd_party/libwebsockets/md5.c:51-51 | a rotation that masks only its right shift is a 32-bit rotation in the low half |
| Md5.Context.Update | modules/3rd_party/libwebsockets/md5.c:150-185 | an update extends the message by exactly its input, whatever was left in the buffer |
| Md5.Context.FillBlock | modules/3rd_party/libwebsockets/md5.c:169-175 | an input that completes the buffered block is consumed up to that block boundary |
| Md5.Context.WholeBlocks | modules/3rd_party/libwebsockets/md5.c:177-184 | whole blocks go to the block function straight from the input and the rest stays in the buffer |
| Md5.Context.CountInput | modules/3rd_party/libwebsockets/md5.c:163-167 | the two 32-bit counters hold the octet count, with the carry detected from the wrapped sum |
| Md5.PadAll | modules/3rd_party/libwebsockets/md5.c:196-210 | the three updates build the standard's padded message |
| Md5.MessageLength | modules/3rd_party/libwebsockets/md5.c:200-204 | the two counter words, shifted to bits, spell the 64-bit length low-order octet first |
| Md5Example.DigestOfAbc | modules/3rd_party/libwebsockets/md5.c:42-216 | the digest of the three octets abc is the one that appendix A.5 of RFC 1321 gives, by way of its 64 operations |
| JsonRoundTrip.PrintThenParse | modules/3rd_party/cJSON/cJSON.c:264-507 | parsing the formatted or unformatted print of any value tree gives back an equal tree and consumes the whole text |
| JsonRoundTrip.ValueRoundTrip | modules/3rd_party/cJSON/cJSON.c:287-507 | at any depth, a printed value followed by any delimiter parses to that value and leaves exactly what followed |
| JsonRoundTrip.ItemsRoundTrip | modules/3rd_party/cJSON/cJSON.c:320-403 | a printed element list parses back, up to its closing bracket |
| JsonRoundTrip.MembersRoundTrip | modules/3rd_party/cJSON/cJSON.c:406-507 | a printed member list parses back, with the tabs and line feeds of the formatted print |
| JsonRoundTrip.NumberRoundTrip | modules/3rd_party/cJSON/cJSON.c:96-138 | a printed integer parses to itself and stops at the delimiter |
| JsonRoundTrip.CharsRoundTrip | modules/3rd_party/cJSON/cJSON.c:155-248 | an escaped string parses back to its octets, up to the closing quote |
| JsonGrammar.TextParses | modules/3rd_party/cJSON/cJSON.c:155-507 | every text of the grammar of RFC 8259, with any blanks between the tokens, any of the escapes in its strings and integers for numbers, is parsed to the value that it stands for, up to what follows it |
| JsonGrammar.ParsesText | modules/3rd_party/cJSON/cJSON.c:264-280 | cJSON_Parse of such a text with blanks around it gives that value and leaves the blanks behind it |
| JsonGrammar.ItemsStep | modules/3rd_party/cJSON/cJSON.c:320-345 | behind an element and blanks the list goes on at a comma, ends at a bracket, and is refused at anything else |
| JsonGrammar.MembersStep | modules/3rd_party/cJSON/cJSON.c:406-439 | the same for members, with a colon behind the name |
| JsonGrammar.NoValue | modules/3rd_party/cJSON/cJSON.c:287-299 | a text at which no value begins is refused |
| JsonGrammar.LettersParse | modules/3rd_party/cJSON/cJSON.c:155-212 | every spelling of a string, with characters as they are, two-character escapes, hex digits of either case and surrogate pairs, is read as what it stands for |
| JsonGrammar.HexTable | modules/3rd_party/cJSON/cJSON.c:140-152 | the hex digits are 0 to 9, a to f and A to F, with their values |
| JsonGrammar.PrintedChar | modules/3rd_party/cJSON/cJSON.c:228-243 | the printer uses the two-character escapes of RFC 8259 but that of the slash, hex digits for other control characters, and leaves everything else as it is |
| JsonGrammar.MemberLayout | modules/3rd_party/cJSON/cJSON.c:442-507 | a formatted member stands on a line of its own, indented by its depth, with a tab behind the colon |
| JsonGrammar.ElementLayout | modules/3rd_party/cJSON/cJSON.c:348-403 | formatted elements stand on one line with a blank behind each comma |
| JsonStrings.PrintStringPtr | modules/3rd_party/cJSON/cJSON.c:215-248 | the buffer that the counting pass sizes is filled exactly by the writing pass: quotes, escaped text and the terminating NUL |
| JsonStrings.CountEscaped | modules/3rd_party/cJSON/cJSON.c:220-220 | the first pass counts exactly the octets the second one writes |
| JsonStrings.ParseStringPtr | modules/3rd_party/cJSON/cJSON.c:155-212 | on a well-formed literal the second pass stays inside the counted buffer, and decodes and consumes what the specification says |
| JsonStrings.DecodedFits | modules/3rd_party/cJSON/cJSON.c:155-212 | the decoded text of a well-formed literal is never longer than the first pass counted |
| JsonStrings.EscapeFits | modules/3rd_party/cJSON/cJSON.c:176-206 | each escape writes no more than the first pass counted for it, a surrogate pair included |
| JsonStrings.CountLiteral | modules/3rd_party/cJSON/cJSON.c:160-160 | the counting loop stays inside a well-formed literal and counts characters with their escapes |
| JsonStrings.PutUtf8 | modules/3rd_party/cJSON/cJSON.c:196-204 | the switch that writes from the last octet backwards leaves the UTF-8 octets in order |
| JsonStrings.EscapeTranscoded | modules/3rd_party/cJSON/cJSON.c:183-204 | a \u escape of either hex case for U+0001 to U+FFFF, surrogates apart, becomes an octet sequence that the grammar of RFC 3629 reads as that code point |
| JsonStrings.PairTranscoded | modules/3rd_party/cJSON/cJSON.c:188-204 | a surrogate pair becomes the UTF-8 of its supplementary code point, up to U+10FFFF |
| JsonStrings.Utf8RoundTrip | modules/3rd_party/cJSON/cJSON.c:196-204 | the transcoder's octets are the shortest-form UTF-8 of the code point |
| JsonPrinter.PrintValue | modules/3rd_party/cJSON/cJSON.c:302-317 | the recursive printer, each child printed into a buffer of its own and copied from there up to its NUL, writes exactly what the printer specifies, with its NUL |
| JsonPrinter.PrintAndParse | modules/3rd_party/cJSON/cJSON.c:264-317 | printing a value tree into a buffer and parsing what the buffer holds gives back an equal tree, and the parser stops exactly at the NUL |
| JsonPrinter.PrintEach | modules/3rd_party/cJSON/cJSON.c:368-376 | the loop of print_array collects the prints of all children in order |
| JsonPrinter.PrintEachMember | modules/3rd_party/cJSON/cJSON.c:468-477 | the loop of print_object collects the quoted names and printed values in order |
| JsonPrinter.PrintNoNul | modules/3rd_party/cJSON/cJSON.c:302-507 | no print contains a NUL, so strlen on a printed child finds its end |
| JsonPrinter.PrintInt | modules/3rd_party/cJSON/cJSON.c:118-126 | the print of a 32-bit integer fits the 21 characters allocated for it |
| JsonBuffers.PrintArray | modules/3rd_party/cJSON/cJSON.c:348-403 | the buffer sized from the children's lengths is never overrun, and ends as the joined children in brackets |
| JsonBuffers.PrintObject | modules/3rd_party/cJSON/cJSON.c:442-507 | the same for an object, with tabs, colons, commas and line feeds |
| JsonBuffers.PrintEmptyObject | modules/3rd_party/cJSON/cJSON.c:451-459 | the empty object fits its buffer at every depth |
| JsonBuffers.JoinedFits | modules/3rd_party/cJSON/cJSON.c:374-374 | the text of the children is never longer than what the first loop added up |
| JsonBuffers.JoinedMembersFits | modules/3rd_party/cJSON/cJSON.c:474-474 | the text of the members is never longer than what the first loop added up |
| JsonBuffers.JoinedIsPrint | modules/3rd_party/cJSON/cJSON.c:394-400 | joining printed children is the recursive print of the element list |
| JsonBuffers.JoinedMembersIsPrint | modules/3rd_party/cJSON/cJSON.c:492-502 | joining printed members is the recursive print of the member list |
| JsonParser.ParsePrinted | modules/3rd_party/cJSON/cJSON.c:264-280 | the walk over either print of a tree returns an equal tree and stops exactly at the end of the text |
| JsonParser.ValueAt | modules/3rd_party/cJSON/cJSON.c:287-299 | the branch on the first characters agrees with the parsing function, and every successful walk moves on |
| JsonParser.ItemsAt | modules/3rd_party/cJSON/cJSON.c:320-345 | the loop that links one child behind the other yields the elements in order, or fails where the parsing function does |
| JsonParser.MembersAt | modules/3rd_party/cJSON/cJSON.c:406-439 | the loop over members yields names and values in order, or fails where the parsing function does |
| JsonParser.DigitsAt | modules/3rd_party/cJSON/cJSON.c:101-102 | the digit loop reads the number the digits spell |
| JsonParser.SkipAt | modules/3rd_party/cJSON/cJSON.c:261-261 | the loop stops at the first character above the space, or at the end |
| JsonMinify.MinifyOfPrint | modules/3rd_party/cJSON/cJSON.c:581-596 | minifying either print gives the unformatted print |
| JsonMinify.MinifiedPrint | modules/3rd_party/cJSON/cJSON.c:581-596 | the same for a print in the middle of a text, at any depth |
| JsonComments.MinifyThenParse | modules/3rd_party/cJSON/cJSON.c:581-596 | minifying any text of the grammar with line and block comments between its tokens leaves exactly the text without its blanks and comments, and that parses to the value that the text stands for |
| JsonComments.Minified | modules/3rd_party/cJSON/cJSON.c:581-596 | the same for such a text in the middle of anything |
| JsonComments.MinifyAndParse | modules/3rd_party/cJSON/cJSON.c:264-280 | minifying a commented text in its buffer and parsing what that leaves gives the value, and the parser stops at the NUL |
| JsonMinify.Minify | modules/3rd_party/cJSON/cJSON.c:581-596 | in one buffer the write index never passes the read index, the result is the minified text with its NUL, and nothing behind the old end changes |
| JsonMinify.MinifyOne | modules/3rd_party/cJSON/cJSON.c:586-593 | each branch of the loop writes what it should and keeps the unread text intact |
| JsonMinify.CopyLiteral | modules/3rd_party/cJSON/cJSON.c:592-592 | a string literal is moved down unchanged, escaped quotes included |
| JsonMinify.PastLine | modules/3rd_party/cJSON/cJSON.c:590-590 | a line comment is skipped up to its line feed |
| JsonMinify.PastBlock | modules/3rd_party/cJSON/cJSON.c:591-591 | a block comment is skipped with its closing |
| AmqpDecoder.Feed | modules/3rd_party/rabbitmq-c-0.5.2/librabbitmq/amqp_connection.c:224-390 | a stream fed in any division into pieces yields the frames of the whole stream, and the same final state or first error |
| AmqpDecoder.DecodeResumes | modules/3rd_party/rabbitmq-c-0.5.2/librabbitmq/amqp_connection.c:224-390 | decoding can be suspended at any octet and continued from the incomplete tail |
| AmqpDecoder.ScanExtends | modules/3rd_party/rabbitmq-c-0.5.2/librabbitmq/amqp_connection.c:224-390 | a verdict once reached is not changed by more input |
| AmqpDecoder.RestIsPartial | modules/3rd_party/rabbitmq-c-0.5.2/librabbitmq/amqp_connection.c:224-390 | what an error-free decode leaves over is itself an incomplete frame |
| AmqpDecoder.Connection.HandleInput | modules/3rd_party/rabbitmq-c-0.5.2/librabbitmq/amqp_connection.c:224-390 | a call consumes at least one octet, up to the next frame boundary and no further, reports that frame, and otherwise keeps everything it was given |
| AmqpDecoder.Connection.ConsumeData | modules/3rd_party/rabbitmq-c-0.5.2/librabbitmq/amqp_connection.c:206-222 | the missing octets, or as many as there are, are appended to what is pending |
| AmqpDecoder.Connection.BeginBody | modules/3rd_party/rabbitmq-c-0.5.2/librabbitmq/amqp_connection.c:276-311 | a complete header sizes the frame buffer in 32-bit arithmetic, and carries the pending octets over |
| AmqpDecoder.Connection.FinishFrame | modules/3rd_party/rabbitmq-c-0.5.2/librabbitmq/amqp_connection.c:314-384 | a complete frame is checked for its end octet and type and handed out, and the decoder is idle again |
| AmqpDecoder.Connection.ReturnToIdle | modules/3rd_party/rabbitmq-c-0.5.2/librabbitmq/amqp_connection.c:197-204 | the decoder waits for a header with nothing pending |
| AmqpDecoder.FeedPiece | modules/3rd_party/rabbitmq-c-0.5.2/librabbitmq/amqp_socket.c:520-556 | offering unconsumed octets again drains a received piece completely |
| AmqpBody.MessageSurvives | modules/3rd_party/rabbitmq-c-0.5.2/librabbitmq/amqp_consumer.c:202-306 | a published message, cut by the network into any pieces, is read back with exactly its properties and body |
| AmqpBody.PublishAndConsume | modules/3rd_party/rabbitmq-c-0.5.2/librabbitmq/amqp_api.c:167-252 | a publish succeeds if and only if frame_max and the socket have room for the message, and what it put on the wire, cut in any way, is then decoded and consumed at the other end as the same properties and body |
| AmqpBody.Sender.SendFragment | modules/3rd_party/rabbitmq-c-0.5.2/librabbitmq/amqp_connection.c:449-469 | a body fragment is gathered between a header in the outbound buffer and the end octet, without being copied |
| AmqpBody.DecodeEncoded | modules/3rd_party/rabbitmq-c-0.5.2/librabbitmq/amqp_connection.c:444-529 | decoding inverts encoding for any sequence of acceptable frames |
| AmqpBody.ScanEncoded | modules/3rd_party/rabbitmq-c-0.5.2/librabbitmq/amqp_connection.c:444-529 | an encoded frame is recognised whatever follows it on the wire |
| AmqpBody.CompleteIsEncoded | modules/3rd_party/rabbitmq-c-0.5.2/librabbitmq/amqp_connection.c:444-529 | whatever the decoder takes for a complete frame is an encoded one, and it is reported if and only if its type is known |
| AmqpBody.FramesFit | modules/3rd_party/rabbitmq-c-0.5.2/librabbitmq/amqp_api.c:167-252 | no frame of a message whose arguments and properties fit a frame is longer than frame_max |
| AmqpBody.Fragments | modules/3rd_party/rabbitmq-c-0.5.2/librabbitmq/amqp_api.c:227-249 | body fragments are non-empty, fit a frame, and together are the body |
| AmqpBody.Sender.BasicPublish | modules/3rd_party/rabbitmq-c-0.5.2/librabbitmq/amqp_api.c:167-252 | when arguments and properties fit a frame, exactly the method, header and body frames of the message go out, none longer than frame_max, as far as the socket takes octets, and it succeeds if and only if it takes them all; otherwise it fails, below a frame_max of 12 always and at most below 20 with a write past the outbound buffer |
| AmqpBody.Sender.PublishBody | modules/3rd_party/rabbitmq-c-0.5.2/librabbitmq/amqp_api.c:227-249 | the loop over the body sends exactly its fragments as frames, as far as the socket takes octets |
| AmqpBody.Sender.SendFrame | modules/3rd_party/rabbitmq-c-0.5.2/librabbitmq/amqp_connection.c:444-529 | each kind of frame that fits goes out in the wire format, through the outbound buffer, as far as the socket takes octets; nothing else is sent, and a write past that buffer occurs if and only if frame_max is too small for the fixed fields of the frame |
| AmqpBody.Sender.Seal | modules/3rd_party/rabbitmq-c-0.5.2/librabbitmq/amqp_connection.c:515-519 | length field and end octet are filled in around the payload |
| AmqpBody.ReadMessage | modules/3rd_party/rabbitmq-c-0.5.2/librabbitmq/amqp_consumer.c:202-306 | the consumer gives what the specification reads from the waiting frames, errors and surplus fragments included |
| AmqpBody.PartsComplete | modules/3rd_party/rabbitmq-c-0.5.2/librabbitmq/amqp_consumer.c:262-297 | fragments that add up to the announced size are read as exactly that body, leaving nothing |
| AmqpBody.HeaderFields | modules/3rd_party/rabbitmq-c-0.5.2/librabbitmq/amqp_connection.c:490-505 | the header frame carries the body size and the properties where the decoder looks for them |
| AmqpBody.MessageDecodes | modules/3rd_party/rabbitmq-c-0.5.2/librabbitmq/amqp_api.c:167-252 | the frames of a deliverable message decode to themselves |
| AmqpBody.FittingFrames | modules/3rd_party/rabbitmq-c-0.5.2/librabbitmq/amqp_api.c:167-252 | when no frame of a message is longer than frame_max, its arguments and properties fit |
| AmqpPool.Pool.Alloc | modules/3rd_party/rabbitmq-c-0.5.2/librabbitmq/amqp_mem.c:125-171 | every allocation since the last recycling is 8-byte aligned, in bounds and apart from every other, also after failed system calls; with none failing it lies where the layout function says |
| AmqpPool.RoundUp | modules/3rd_party/rabbitmq-c-0.5.2/librabbitmq/amqp_mem.c:131-131 | a size becomes the next multiple of eight, in 64-bit arithmetic |
| AmqpPool.LongEnough | modules/3rd_party/rabbitmq-c-0.5.2/librabbitmq/amqp_mem.c:131-131 | the rounded size covers the request if and only if the request is at most 2^64 - 8 |
| AmqpPool.Pool.Recycle | modules/3rd_party/rabbitmq-c-0.5.2/librabbitmq/amqp_mem.c:88-94 | recycling frees nothing but the large blocks: every page is kept, in order |
| AmqpPool.Pool.AllocLarge | modules/3rd_party/rabbitmq-c-0.5.2/librabbitmq/amqp_mem.c:133-142 | a request of more than a page gets a block of its own and leaves the page position alone |
| AmqpPool.Pool.Bump | modules/3rd_party/rabbitmq-c-0.5.2/librabbitmq/amqp_mem.c:144-152 | the next bytes of the current page are handed out |
| AmqpPool.Pool.KeptPage | modules/3rd_party/rabbitmq-c-0.5.2/librabbitmq/amqp_mem.c:163-170 | a kept page is reused from its start |
| AmqpPool.Pool.NewPage | modules/3rd_party/rabbitmq-c-0.5.2/librabbitmq/amqp_mem.c:154-170 | a page from the system is recorded and used; one that cannot be recorded is still never handed out twice |
| AmqpPool.Serve | modules/3rd_party/rabbitmq-c-0.5.2/librabbitmq/amqp_mem.c:125-171 | page-sized or smaller requests from an empty position lie where the layout says, and take just the pages the layout lacks |
| AmqpPool.Replay | modules/3rd_party/rabbitmq-c-0.5.2/librabbitmq/amqp_mem.c:88-171 | replaying the same requests after recycling gives the same addresses and no new page |
| AmqpPool.PlacedOnce | modules/3rd_party/rabbitmq-c-0.5.2/librabbitmq/amqp_mem.c:125-171 | the layout determines every address |
| AmqpPool.LayoutPages | modules/3rd_party/rabbitmq-c-0.5.2/librabbitmq/amqp_mem.c:154-166 | pages are taken one after the other and never given back in between |
| HostCheck.Check | modules/3rd_party/rabbitmq-c-0.5.2/librabbitmq/amqp_hostcheck.c:189-201 | the answer is yes exactly when both names are non-empty and equal ignoring ASCII case, or the pattern's wildcard covers the host |
| HostCheck.HostMatch | modules/3rd_party/rabbitmq-c-0.5.2/librabbitmq/amqp_hostcheck.c:148-187 | the wildcard branch is taken exactly for patterns of that form, and plain comparison otherwise |
| HostCheck.MatchLabels | modules/3rd_party/rabbitmq-c-0.5.2/librabbitmq/amqp_hostcheck.c:170-186 | the pointer tests on label ends amount to the wildcard rule on labels |
| HostCheck.SplitMatch | modules/3rd_party/rabbitmq-c-0.5.2/librabbitmq/amqp_hostcheck.c:179-186 | comparing a prefix and a suffix around the asterisk is the existence of a non-empty middle part |
| HostCheck.TwoDots | modules/3rd_party/rabbitmq-c-0.5.2/librabbitmq/amqp_hostcheck.c:159-164 | the two searches for a dot succeed exactly when the pattern has two dots |
| HostCheck.InFirstLabel | modules/3rd_party/rabbitmq-c-0.5.2/librabbitmq/amqp_hostcheck.c:154-166 | comparing the first asterisk with the first dot tells whether the first label has an asterisk |
| HostCheck.RawEqual | modules/3rd_party/rabbitmq-c-0.5.2/librabbitmq/amqp_hostcheck.c:104-120 | the loop answers equality of the strings ignoring ASCII case |
| HostCheck.RawNEqual | modules/3rd_party/rabbitmq-c-0.5.2/librabbitmq/amqp_hostcheck.c:122-137 | the bounded loop answers equality of the two prefixes, strings that end early included |
| HostCheck.UpperAlike | modules/3rd_party/rabbitmq-c-0.5.2/librabbitmq/amqp_hostcheck.c:34-92 | two characters are compared alike if and only if they are the same or the two cases of one ASCII letter |
| Versions.CmpIsLexicographic | modules/proto/proto.c:12-47 | the comparison is the lexicographic order of the numbers present, an absent version being below all |
| Versions.CmpTransitive | modules/proto/proto.c:12-47 | the comparison is a total preorder |
| RpManager.Updated | modules/rpmanager/rpmanager.c:90-116 | a consistent update moves exactly one package, strictly upwards to to_version, and leaves the others alone |
| RpManager.Manager.OneAttempt | modules/rpmanager/rpmanager.c:486-548 | over any power cuts, failures and resumes of one attempt: a journal of k in UPDATE_PENDING means that files 0..k succeeded and none above k+2 was touched; a call returning OK means that all did; in ROLLBACK_SUCCESS every touched file was undone except, when the first rollback step was never journalled, the two behind the journal at the cut, so everything was undone if and only if that step was journalled or the file behind that journal was never touched |
| RpManager.MissedFile | modules/rpmanager/rpmanager.c:234-403 | for every file i but the first there is a run that misses it: image i fails after it was touched, the power goes once ROLLBACK_PENDING is saved, and the resume rolls back i-1, ..., 0 only and reports ROLLBACK_SUCCESS |
| RpManager.MissedTwo | modules/rpmanager/rpmanager.c:486-548 | from an interrupted update with j in its journal there is a run that misses two: the resume recovers j+1, fails to apply j+2 and is cut at the same place, and the next resume rolls back j, ..., 0 only |
| RpManager.ConfigLeft | modules/rpmanager/rpmanager.c:455-472 | when every file is applied and the removal of the journal fails or is cut off, the configuration stays the old one for good: no number of resumes changes anything or returns OK |
| RpManager.Manager.WhatIsLeft | modules/rpmanager/rpmanager.c:234-300 | in ROLLBACK_SUCCESS everything touched was undone if and only if the first rollback step was journalled or the file behind the journal at the cut was never touched |
| RpManager.Manager.ApplyRP | modules/rpmanager/rpmanager.c:486-580 | files are applied in order; when something about file m is the first thing to fail and nothing fails after it, a failed image or checksum has exactly m, ..., 0 rolled back, the journal gone, ROLLBACK_SUCCESS saved and ERROR returned, and a failed metadata read or journal write leaves the update pending with CRITICAL; when nothing fails OK is returned with all applied and the configuration updated, but for the removal of the journal and the write of the configuration, which decide exactly what becomes of it |
| RpManager.Manager.ResumeRP | modules/rpmanager/rpmanager.c:486-590 | a resume keeps the invariants; it runs into undefined behaviour if and only if the journal has one of the two values named and state, configuration and journal can be read, and from those values or without a journal never changes anything or succeeds; it does nothing from a finished state; undisturbed it finishes the update or the rollback, and a single failure behind the recovered file does what it does in a first call |
| RpManager.Manager.RunUpdate | modules/rpmanager/rpmanager.c:303-403 | the update loop's trace, whether or not it gets to the end, and what a single failure of each kind, or one with a cut behind ROLLBACK_PENDING, comes to |
| RpManager.Manager.UpdatePhase | modules/rpmanager/rpmanager.c:303-386 | runUpdate up to the end of its loop: UPDATE_PENDING is saved, files are applied in order, and a failure says which |
| RpManager.Manager.TurnBack | modules/rpmanager/rpmanager.c:397-400 | a failed file turns the update into a rollback of that file and all below it, which is complete when nothing else fails |
| RpManager.Manager.Conclude | modules/rpmanager/rpmanager.c:455-484 | the status of runUpdate or runRollback decides what the action returns, and a success of either is finalized |
| RpManager.Manager.Continue | modules/rpmanager/rpmanager.c:501-548 | runAction behind its checks, for an interrupted update or rollback |
| RpManager.Manager.ContinueUpdate | modules/rpmanager/rpmanager.c:501-519 | an interrupted update goes on behind the journalled file, a single failure included |
| RpManager.Manager.ContinueRollback | modules/rpmanager/rpmanager.c:520-548 | an interrupted rollback goes on from the journalled file, and undisturbed reports it complete |
| RpManager.Manager.RunRollback | modules/rpmanager/rpmanager.c:234-300 | the rollback loop's trace, and what the journal then means |
| RpManager.Manager.RollbackFrom | modules/rpmanager/rpmanager.c:244-284 | the loop rolls back in descending order, each step followed by its journal entry, and a complete one leaves no file above -1 |
| RpManager.Manager.FinishRollback | modules/rpmanager/rpmanager.c:292-298 | the journal is removed before the state says that the rollback is complete, and a cut between the two is recoverable |
| RpManager.Manager.ApplyStep | modules/rpmanager/rpmanager.c:318-396 | one file: applied and journalled, given up, or to be rolled back, by the first thing that fails about it |
| RpManager.Manager.ApplyFrom | modules/rpmanager/rpmanager.c:313-386 | the loop applies files in ascending order, each followed by its journal entry, and says where it stopped and whether that asks for a rollback |
| RpManager.Manager.ResumeUpdate | modules/rpmanager/rpmanager.c:501-519 | the branch for an interrupted update is undefined exactly from the last file's journal value, and otherwise resumes one file and updates the rest |
| RpManager.Manager.ResumeRollback | modules/rpmanager/rpmanager.c:520-545 | the branch for an interrupted rollback is undefined exactly from a journal of -1, and otherwise resumes one file and rolls back those below |
| RpManager.Manager.RollbackStep | modules/rpmanager/rpmanager.c:243-290 | one file rolled back and journalled |
| RpManager.Manager.RunRecover | modules/rpmanager/rpmanager.c:407-435 | the interrupted file is resumed; an index outside the update files is undefined |
| RpManager.Manager.Finalize | modules/rpmanager/rpmanager.c:455-484 | success removes the journal before it writes the new configuration: the configuration is the new one if and only if the removal goes well and the write is not cut off before it or failing, and OK needs both to go well |
| RpManager.Manager.PreActionChecks | modules/rpmanager/rpmanager.c:437-453 | an action goes on only with readable state and configuration, a consistent update, and the kind of call the state wants |
| RpManager.RolledMore | modules/rpmanager/rpmanager.c:243-290 | a rollback trace extended by one step, completed or cut off, is a rollback trace |
| RpManager.UpdateThenRollback | modules/rpmanager/rpmanager.c:384-401 | an update trace that turns into a complete rollback is a failure rolled back from its index |
| SenderQueue.ReachableStates | modules/transport/rvi_transport/rvi_producer.c:106-173 | in every interleaving: a non-empty queue with its lock free has the worker awake or about to be; accepted messages are those sent, queued, in hand and dropped, as a multiset; without failures sends are a prefix of what was accepted |
| SenderQueue.PushLands | modules/transport/rvi_transport/rvi_producer.c:150-173 | in every interleaving: a message that a thread has begun to push is accepted by the time that push is over, unless an allocation fails |
| SenderQueue.PushArrives | modules/transport/rvi_transport/rvi_producer.c:150-173 | a push that nothing comes in between adds its message at the end, wakes the worker if the queue was empty, and frees the lock |
| SenderQueue.AllGetSent | modules/transport/rvi_transport/rvi_producer.c:106-148 | from any reachable state with the worker between two messages, seven of its steps a message send all that is queued, in order; without failures everything accepted is then sent |
| SenderQueue.PushedThenSent | modules/transport/rvi_transport/rvi_producer.c:106-173 | any sequence of messages pushed from the start is sent, as it was pushed |
| SenderQueue.RoundSends | modules/transport/rvi_transport/rvi_producer.c:106-123 | one round of the worker sends the first message of the queue |
| SenderQueue.RoundRetries | modules/transport/rvi_transport/rvi_producer.c:124-141 | one round in which sending fails puts the message back at the end and leaves the worker awake |
| SenderQueue.WorkerCanGo | modules/transport/rvi_transport/rvi_producer.c:106-148 | in every reachable state with something to send and a free queue lock the worker can step |
| SenderQueue.RunKeepsInv | modules/transport/rvi_transport/rvi_producer.c:106-173 | every interleaving of one worker and any pushers keeps mutual exclusion, the wake-up invariant, conservation and order |
| SenderQueue.StepKeepsInv | modules/transport/rmq_transport/rmq_producer.c:126-198 | every single step keeps them, with connecting and publishing free to fail |
| SenderQueue.WorkerWakes | modules/transport/rvi_transport/rvi_producer.c:106-148 | no step of the worker loses a wake-up, the re-push after a failed send included |
| SenderQueue.PusherWakes | modules/transport/rvi_transport/rvi_producer.c:150-173 | no step of a pusher loses a wake-up, a refused message included |
| SenderQueue.WorkerConserves | modules/transport/rvi_transport/rvi_producer.c:106-148 | no step of the worker loses or invents a message, but for a re-push that fails |
| SenderQueue.PusherConserves | modules/transport/rvi_transport/rvi_producer.c:150-173 | a push adds its message to the end or reports failure |
| SenderQueue.WorkerNeverStuck | modules/transport/threaded_transport.c:117-128 | after the cleanup's null push the worker can step, or the holder of the queue lock can and comes closer to freeing it |
| SenderQueue.CleanupReleases | modules/transport/threaded_transport.c:117-128 | the cleanup clears _continue, and its null push leaves the queue as it is, the queue lock free and _emptyLock within the worker's reach |
| SenderQueue.WorkerExits | modules/transport/threaded_transport.c:34-40 | from then on the worker, left to itself, comes to its exit |
| SenderQueue.WorkerStops | modules/transport/threaded_transport.c:34-40 | once _continue is clear the worker takes at most eleven more steps |
| SenderQueue.WorkerApproachesExit | modules/transport/threaded_transport.c:34-40 | each of these steps brings the worker closer to its exit, and no other thread sets it back |
| MsgQueue.Queue.Push | modules/transport/msgqueue.c:43-63 | a message is attached at the back of the linked queue if a node can be allocated, and the queue is unchanged otherwise |
| MsgQueue.Queue.Pop | modules/transport/msgqueue.c:65-81 | the message at the front is taken off |
| MsgQueue.Queue.Empty | modules/transport/msgqueue.c:84-88 | empty exactly when there is no message |
| Core.Run | modules/core/core.c:56-391 | in any run with failing writes and power cuts, a persisted DOWNLOAD or UPGRADE has a persisted available_config; the log of starts that miss their configuration holds only configurations without an update path, and is empty as long as none such replaces one being downloaded; every configuration that is ever installed has been sent to the service and has a path |
| Core.Handle | modules/core/core.c:171-391 | each event keeps storage and memory in agreement, also when the power goes in its middle, and leaves no download stuck: in DOWNLOAD, what has files to download has them on their way; the release package manager is called at most once, and only for a download that is complete or an upgrade that was interrupted; when nothing fails a complete download is installed, and a failed one dropped |
| Core.WholeUpdate | modules/core/core.c:171-391 | from empty storage, when nothing fails: a configuration that fits, once downloaded, is installed by exactly one call, and the answer leads to idle with the configuration dropped or, when critical, to a closed service |
| Core.ResumedUpgrade | modules/core/core.c:373-382 | however often the power goes during the installation, every start resumes it with the same configuration, until there is an answer |
| Core.ReplacedDownload | modules/core/core.c:286-372 | for every configuration without an update path that replaces one being downloaded, the restart that nothing disturbs takes the branch for a missing configuration, returns ERROR and falls back to IDLE |
| Core.LostDownload | modules/core/core.c:56-391 | such a run exists from empty storage: a download begins, the configuration is replaced, and the next start finds nothing to resume |
| Core.Orchestrator.Init | modules/core/core.c:312-391 | the branch at line 368 is taken if and only if DOWNLOAD was persisted with a configuration that has no path; the branch at line 378 never; with nothing failing a persisted UPGRADE resumes the installation and a persisted DOWNLOAD the download |
| Core.Orchestrator.ResumeDownload | modules/core/core.c:351-372 | the branch for an interrupted download, from storage alone |
| Core.Orchestrator.AvailableConfigReceived | modules/core/core.c:286-310 | a different configuration replaces the one being downloaded, and one with nothing to upgrade leaves DOWNLOAD persisted with it; the same one changes nothing; with nothing failing one that fits is downloaded, or installed if it is all there, and one that does not is dropped |
| Core.Orchestrator.ApplyConfig | modules/core/core.c:229-278 | nothing to upgrade changes nothing; with nothing failing a download begins if the update fits what is installed, and otherwise the configuration is dropped |
| Core.Orchestrator.PerformUpgrade | modules/core/core.c:184-209 | UPGRADE is persisted before the one call of the release package manager and left again before the configuration goes; with nothing failing each answer leads where it should |
| Core.Orchestrator.UpgradeAnswered | modules/core/core.c:190-209 | the answer is persisted before the configuration goes; a critical one closes the service and keeps both |
| Core.Orchestrator.ResumeUpgrade | modules/core/core.c:373-382 | an interrupted installation is resumed with the persisted configuration |
| Core.Orchestrator.DownloadFinished | modules/core/core.c:211-227 | with nothing failing a complete download is installed, or kept for the trigger in idle, and a failed one dropped with an error; nothing else calls the release package manager |
| Core.Orchestrator.ChangeStatus | modules/core/core.c:56-92 | the state is persisted, or the service is broken and closed; no call finds the storage closed |
| Core.Orchestrator.SaveAvailableConfig | modules/core/core.c:137-162 | cache and storage agree afterwards, or the service is broken and closed |
| DownloadMgr.Run | modules/core/downloadmgr.c:216-385 | over any callbacks, cancellations, failing writes and power cuts: every call of the finished handler is logged with whether everything was then complete and whether a failed write had spoilt the list; success is reported only with everything complete or under a spoilt list, recorded paths really completed otherwise, and power cuts alone never spoil it |
| DownloadMgr.StalePath | modules/core/downloadmgr.c:42-68 | such a failure exists: a path whose removal failed in a cancellation is counted again when a later path cannot be written over it |
| DownloadMgr.EarlySuccess | modules/core/downloadmgr.c:312-370 | what comes of it: the other files complete, and the next start reports success while that file never completed |
| DownloadMgr.Handle | modules/core/downloadmgr.c:216-385 | each event keeps this, also when a write fails or the power goes between two writes; with no cut, nothing unreadable and nothing refused, each completed file brings the end one step nearer and the last one the report of success, and a failed one the report of failure |
| DownloadMgr.WholeDownload | modules/core/downloadmgr.c:216-385 | a whole download, begun or resumed, ends with the report of success whatever the order in which its files complete, when nothing is cut off, unreadable or refused, and with everything complete when no write fails |
| DownloadMgr.Manager.FinishedItem | modules/core/downloadmgr.c:216-251 | a completed .uf is followed by its data file; a completed data file reports success if and only if no other download is under way, and a failed file reports failure; success means everything complete unless the list was spoilt |
| DownloadMgr.Manager.Resume | modules/core/downloadmgr.c:312-370 | a resume covers every entry from the list in storage and downloads nothing again that is listed; a torn list starts all over with nothing counted as complete; it succeeds when nothing is cut off, unreadable or refused |
| DownloadMgr.Manager.ResumeEntries | modules/core/downloadmgr.c:327-360 | the loop over the entries starts exactly downloads of files that the list does not have |
| DownloadMgr.Manager.StartOver | modules/core/downloadmgr.c:318-322 | what is left of a torn list is removed, and everything is downloaded again |
| DownloadMgr.Manager.DownloadUFs | modules/core/downloadmgr.c:284-310 | every .uf is on its way, or everything is cancelled; it succeeds when nothing is cut off or refused |
| DownloadMgr.Manager.ResumeEntry | modules/core/downloadmgr.c:327-360 | an entry is covered by what was restored or by a new download |
| DownloadMgr.Manager.Restore | modules/core/downloadmgr.c:27-40 | the list is restored in reverse order, and a missing path is reported |
| DownloadMgr.Manager.MarkDownloaded | modules/core/downloadmgr.c:42-51 | the path is written before the size that makes it count, and neither result is looked at: the list is wrong afterwards exactly if it was before, or the path write failed over a stale path and the size write did not |
| DownloadMgr.Manager.CleanupDownloaded | modules/core/downloadmgr.c:53-68 | a cut in the middle leaves a list recognised as torn, an empty one, or the old one; a failed removal leaves just that path, a failed write just the size |
| DownloadMgr.Manager.Cancel | modules/core/downloadmgr.c:372-385 | a cancellation forgets what completed, and leaves a list that still claims it exactly if removing a path and resetting the size both failed |
| DownloadMgr.Manager.Finalize | modules/core/downloadmgr.c:130-141 | downloads are let go before the handler is told, and the call is logged |
| DownloadMgr.Manager.FinishIfDone | modules/core/downloadmgr.c:305-309 | success is reported if and only if no download is under way, and only with everything complete unless the list was spoilt |
| DownloadMgr.MarkedCovered | modules/core/downloadmgr.c:216-243 | a completed file other than an entry's own .uf leaves that entry covered |
| DownloadMgr.ActiveDownloads | modules/core/downloadmgr.c:143-153 | the count is zero exactly when no item has an id |
| DownloadMgr.FindById | modules/core/downloaditem.c:48-56 | the item found has that id |

## Left out

- HTTP parsing, the handshake, TLS, extensions (deflate, x-google-mux) and revision 0 framing of libwebsockets: foreign text formats and calls.
- WsAgreement.ServerReceives: that a frame is handled only if it arrives is stated for text and binary; a continuation frame has no effect at a server, which other octets can have as well.
- WebSocket close frames written with a reason, and the state that awaits a close acknowledgement: the writer moves its buffer pointer there after it fixed the mask position.
- Zero-length frames: the writer returns at once for them, and the server machine does not read such frames as empty.
- The SHA-1 of the revision 4 nonce (parsers.c:366-436): it is computed into frame_mask_04, which xor_mask_04 never reads, so the model leaves it out and gives both ends the same masking_key_04.
- WsConnection.Wsi.RxSpill: a client that answers a close or a ping draws a fresh nonce for its own frame and restarts the mask index while doing so; that redraw belongs to the writer (WsConnection.Wsi.FrameMaskGenerate) and is no part of the receive step.
- WsConnection.Wsi.Write: partial socket writes and the truncated-send buffer are not modelled; a write call is taken as a whole.
- Flag bits: masks and shifts on header octets (0x80, 0x7f, <<) are written as division, remainder and addition on octets.
- JSON fractions, exponents and numbers beyond 32 bits: floating point is not modelled.
- JsonStrings.ParseStringPtr: malformed literals, for which the C code can read or write past an end, are excluded by its precondition; the parsing functions give them no result.
- The prev and next pointers of cJSON nodes and the freeing of partial results: a child chain is a list value, and allocations do not fail.
- JsonParser.ValueAt: the string branch uses the parsing function; its two passes are proved separately in JsonStrings, on well-formed literals.
- cJSON's tree-editing and reference functions: easy members.
- The connection's INITIAL state of the AMQP decoder: eight octets are consumed there but seven are copied, so the theorems start in IDLE.
- AMQP method and property codecs: an oracle that accepts or refuses; payloads are octets.
- Channel queues, heartbeats and RPC replies of the AMQP client: only the frames of the awaited channel are modelled.
- AmqpDecoder.Connection.HandleInput: reading past the end of a payload shorter than its fixed fields, and the length that wraps at 2^32, are modelled as errors.
- amqp_get_or_create_channel_pool: a hash list lookup, easy.
- AmqpPool.Pool.Alloc: page sizes above 2^63 octets are not modelled, so that adding to a position does not wrap; block counts are unbounded where the source has an int.
- AmqpPool.Replay: assumes that no system allocation fails, as replaying does not help then.
- HostCheck.Check: null pointers count as empty strings.
- RpManager.Manager.ResumeRP: two journal values, the last file's in UPDATE_PENDING and -1 in ROLLBACK_PENDING, index outside the update files; this is an outcome of its own (Stuck) and nothing is claimed behind it.
- rpmanager status messages, file paths, checksums and image handlers: oracles that succeed, fail or are cut off.
- Core: the manually triggered upgrade thread, the wait for a download trigger, directory removal and status reports; failing reads of the storage.
- Core.Run: handlers run one at a time on one thread, and every update entry carries a url, so that a failed start of downloads leaves none behind.
- DownloadMgr.Run: one update with distinct uuids and file names that do not contain each other, so that the substring searches find paths exactly; entries carry urls; after a failed write has made the list claim a file it should not, nothing more is claimed until a cancellation, a restart or an empty list clears that.
- DownloadMgr: the back links of the item list and download progress; the list is a sequence with new items in front.
- SenderQueue: threads as atomic steps over a sequence for the queue, with unlocking a free lock as no operation; the linked queue itself is proved in MsgQueue.
- Md5.MD5: a negative length does nothing in the source and does not occur in the model; the 64 P lines are a table, taken four at a time.
- Sha1: the single macros S, F, K and the round's sum are shared between the definition and the code, since both write them alike; Sha1Example holds them to a digest.
- base64-decode.c, protobuf, D-Bus, glib, libsoup, SQLite, tar, command-line tools and the web socket adapter.
