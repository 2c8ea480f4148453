# SMGP 3.0 stack: a Dafny model and its proofs

The project models the Go implementation of the China Telecom Short Message Gateway Protocol (SMGP 3.0): the binary
packet codec, the stream framing, the long-message splitter, message ids, and the server's connection protocol, and
proves what each promises and what they promise together.

Run `dafny verify dfyconfig.toml`.

## Reading order

| file | content |
|---|---|
| `Bytes`, `Results`, `Slices` | bytes and big-endian words; values, errors and panics; Go byte slices with shared storage and `append` |
| `Options` | TLV options: encoding, `ParseOptions` and `Len` against independent definitions, and the option map on the heap |
| `PacketIo` | `pkgWriter` and `pkgReader` with their sticky errors; writing an option map in whatever order Go ranges over it |
| `Submit`, `Deliver`, `Login` | the packets with `Pack` and `Unpack` as methods on packet objects, proved against layouts, and their round trips |
| `Text`, `Report` | hexadecimal and padded numbers; the text of a status report |
| `Packets`, `SmallPkts` | the sum of all packets; the packets of fixed places as objects that write and read them |
| `Layout` | where everything is in the bytes of each packet, in the numbers of the protocol |
| `Framing` | the receive step, receiving over a whole stream, and what a timeout does to it |
| `Connection`, `Pool` | a connection that sends, and receives through a pooled buffer; many receives on many connections that share one buffer |
| `LongSms`, `MsgPkgs` | splitting, the packets of a message, and reassembly of what was received |
| `MsgId` | making and unpacking message ids, and the number generators |
| `Server`, `Outgoing` | the serve loop and the active-test ticker as interleaved steps; the bytes they write and what the peer receives |
| `ServerConn` | the server's methods one call at a time, each doing what steps of the protocol do |
| `EndToEnd` | the ids of status reports, and logging in, from the example server to the client |

## How Go is modelled

- A Go `string` is the sequence of its bytes. `uint8`, `uint16` and `uint32` are bounded integers, and conversions that
  drop high bits are written out (`ToU16`, `ToU32`, `% 0x100`, `Wrap32`).
- A packet struct is an object with one record-valued field for everything but its options, and one field for the option
  map. Option values are slices, so that they can share storage with the receive buffer.
- A call ends in `Ok`, `Err` or `Panic`. A Go run-time panic (a slice out of range) is the value `Panic`.
- The order in which a map is ranged over is any order; a `Pack` returns, as a ghost result, the order it happened to use.
- The network is the sequence of bytes that the peer sends, and each receive is told when the deadline passes. A write
  may break off after any number of bytes.
- MD5 is any function to 16 bytes. The UCS2 encoder is any partial function. The clock and random seeds are parameters.
- The reader methods take a ghost argument: the offset at which the caller believes the cursor to be.

## Where the code differs from its documentation or from what one would expect

- The comment on message ids describes the gateway code and the sequence number as decimal digits (BCD); the code prints
  both in hexadecimal. `MsgId.DocumentedForm` says exactly when the two agree, and `MsgId.DocumentedExampleFails` that they
  do not for the comment's own example.
- Exit packets carry the ids of the active-test packets, so they arrive as active tests.
- `Unpack` of a truncated Submit or Deliver never gets to return the reader's error, which is its last statement: the
  hand-kept offset then lies past the end of the data, and slicing panics.
- A read timeout inside a header loses the bytes already read and the loop goes on. `Framing.TimeoutExactly` says when the
  packet is received all the same.
- The server's switch has no case for login and Submit responses: a peer that sends one is disconnected.
- The hash of a login does not separate its parts: `Login.PreimageDetermines` says for which ids two logins can have the
  same one.
- A Deliver request cuts its message id at the first zero byte; the status report inside keeps it.
- Closing `done` does not wake a ticker that is sending on `exceed`, and does not keep its select from taking one more
  tick. After serve has ended, `Server.TickerCanEnd` says exactly when some run ends that goroutine, and
  `Server.TickerCanStick` exactly when some run leaves it stuck; from one state both can hold (`Server.EndsOrSticks`), and
  `Server.StuckIsReached` gives runs from the start after which it can no longer end.
- The hash in a login is taken before the id is padded and before a zero timestamp is replaced; `EndToEnd.LoginWorks` says
  exactly which logins the example server accepts.
- The concatenation element is that of section 9.2.3.24.1 of 3GPP TS 23.040; its total is one byte, so that it is right
  for up to 255 chunks only, and the splitter does not refuse more.

## Model

| member | source | states |
|---|---|---|
| Layout.TlvLayout | pkg/types.go:86-105 | a TLV is its tag and its length, high byte first, and its value |
| Bytes.ToU16Exact | pkg/types.go:78-84 | the length field of a TLV is its value's length modulo 65536 |
| Options.AcceptsExactlyTlvs | pkg/options.go:82-111 | the inputs that are accepted are exactly the concatenations of TLV encodings, and the TLVs are determined by the bytes |
| Options.InsertKeepsLast | pkg/options.go:107 | the parsed map holds exactly the tags that occur, each with the last TLV that carries it |
| Options.ParseIsWellFormed | pkg/options.go:107 | in a parsed map every key is its TLV's tag and every length field is right |
| Options.ParseOptions | pkg/options.go:82-111 | the loop stops, and returns either the length error or a map whose values are windows of the input that spell the parsed TLVs |
| Options.ParseSerialized | pkg/types.go:86-95 | a well-formed map, written in any order, parses back to itself |
| Options.Len | pkg/options.go:60-68 | the loop's total is the order-independent sum of 4 + Length |
| Options.SumLenOfParse | pkg/options.go:60-68 | the length of a parsed map is at most that of the input, and equal exactly when no tag repeats |
| Options.SumLenInOrder | pkg/options.go:60-68 | the length of a well-formed map is the number of bytes it is written in, for any order |
| Options.ReadsDeref | pkg/options.go:104 | as long as the input's storage is not written to, the parsed map has the values that were read |
| PacketIo.PkgWriter.WriteBytes | pkg/packet.go:55-66 | appends, or does nothing once a write has failed |
| PacketIo.PkgWriter.WriteFixedSizeString | pkg/packet.go:68-86 | pads to the width with zeros; a longer string sets the error, which no later write clears |
| PacketIo.PkgWriter.Bytes | pkg/packet.go:34-40 | all that was asked to be written, or the first error |
| PacketIo.PkgReader.ReadByte | pkg/packet.go:146-158 | the byte at the caller's offset; afterwards the offset agrees with the cursor, or lies past the end if a read has failed |
| PacketIo.PkgReader.ReadBytes | pkg/packet.go:173-190 | fills the buffer from the caller's offset, with the same agreement; a read after a failure changes nothing |
| PacketIo.PkgReader.ReadCString | pkg/packet.go:192-217 | the field at the caller's offset up to its first zero byte, with the same agreement |
| PacketIo.PkgReader.ReadString | pkg/packet.go:192-217 | the string is a copy, which later reads into the shared buffer do not touch |
| PacketIo.WriteOptions | pkg/submit.go:69-72 | every option is written exactly once, in some order of the map |
| Bytes.CutOctet | pkg/packet.go:192-217 | a fixed-width field gives back the string put into it exactly when that has no zero byte |
| Bytes.OctetKeeps | pkg/types.go:34-48 | a field of fixed width keeps the first bytes of a string, also of one that is too long, and has zeros after it |
| Bytes.BigEndian | pkg/packet.go:113-130 | words are written high byte first |
| Layout.WireHeader | pkg/request.go:5-28 | the second word of every packet is its request id, by number, and the third its sequence id; exits have the id of an active test |
| Layout.SubmitLayout | pkg/submit.go:47-74 | the place of every field of a Submit, by number |
| Submit.SubmitReqPkt.Pack | pkg/submit.go:40-75 | returns the header and the body laid out field by field, or the error of a field that does not fit, and sets the sequence id |
| Submit.SubmitReqPkt.Unpack | pkg/submit.go:77-113 | every field is read off its own place, the options are windows of the data from the computed offset on, and a truncated body panics |
| Submit.SubmitReqPkt.ReadAll | pkg/submit.go:79-106 | the offset that adds up the widths of what was read is in step with the reader, which has failed exactly when the body is truncated |
| Submit.SubmitReqPkt.ReadFees | pkg/submit.go:79-88 | after the fields of fixed width the hand-kept offset is in step with the reader |
| Submit.SubmitReqPkt.ReadDests | pkg/submit.go:95-98 | the recipients are read at offset 105 + 21i; the offset stays in step, or past the end if a read failed |
| Submit.SubmitReqPkt.ReadTail | pkg/submit.go:99-104 | the reader has failed exactly when the offset lies past the end of the data |
| Submit.ReadFields | pkg/submit.go:77-113 | fields read at the reader's places are those of the positional definition |
| Submit.RoundTripExactly | pkg/submit.go:40-113 | for every order of the options, Unpack of Pack gives the packet back exactly when its counts are right, its fixed fields fit and hold no zero, and its options are well-formed |
| Submit.HeaderLengthExact | pkg/submit.go:41-44 | the header states the real length exactly when the declared total is the real one and fits in 32 bits, and when that is |
| Layout.DeliverLayout | pkg/deliver.go:86-103 | the place of every field of a Deliver, by number |
| Deliver.DeliverReqPkt.Pack | pkg/deliver.go:79-104 | returns the header and the body laid out field by field, or the error of a field that does not fit |
| Deliver.DeliverReqPkt.Unpack | pkg/deliver.go:106-136 | every field is read off its own place and a report is decoded; truncated bodies and short reports panic |
| Deliver.DeliverReqPkt.ReadAll | pkg/deliver.go:107-127 | the offset is in step with the reader, and a report too short for its positions panics |
| Deliver.RoundTrip | pkg/deliver.go:79-136 | for every order of the options the receiver gets the packet with its id cut at the first zero and its report decoded |
| Deliver.RoundTripExactly | pkg/deliver.go:79-136 | for every order of the options, the packet comes back exactly when its fields fit and hold no zero, its length is right, its id is uncut hexadecimal, its report is the one its content spells, and its options are well-formed |
| Deliver.MsgIdSurvives | pkg/deliver.go:110 | the id survives exactly when it is lower-case hexadecimal for at most ten bytes of which none is zero |
| Deliver.HeaderLengthExact | pkg/deliver.go:80-83 | the header states the real length exactly when the declared total is the real one and fits in 32 bits, and when that is |
| Layout.ReportLayout | pkg/deliver.go:25-30 | the text of a status report, with its literal parts |
| Report.DecodeEncodeExactly | pkg/deliver.go:25-43 | decoding what was encoded gives the report back exactly for fields of the standard widths |
| Report.EncodeDecodeExactly | pkg/deliver.go:25-43 | encoding what was decoded gives the text back exactly when it carries the literal separators |
| Text.HexTable | pkg/deliver.go:87 | which characters are printed and read as which digits |
| Text.HexDecodeStops | pkg/deliver.go:87 | decoding takes the pairs up to the first with something that is no digit, and ignores what follows |
| Text.HexLossless | pkg/deliver.go:87-88 | decoding and encoding hexadecimal loses nothing exactly for an even number of lower-case digits |
| Login.PreimageDetermines | pkg/utils.go:41-56 | for any two client ids, the hashed bytes determine id, secret and timestamp exactly when the ids are the same or neither, with the seven zeros after it, starts the other |
| Login.UsualIdsNoClash | pkg/utils.go:41-56 | ids of one length, and ids without zero bytes, never clash in that way |
| Login.PreimageCollision | pkg/utils.go:41-56 | two different logins that hash the same bytes, whose ids do clash |
| Login.StampIsDecimal | pkg/utils.go:47 | the stamp is ten decimal digits that stand for the timestamp |
| Login.PreimageLayout | pkg/utils.go:41-56 | what is hashed: the id, seven zeros, the secret, and the timestamp in ten decimal digits |
| Login.StampInjective | pkg/utils.go:47 | stamps are equal exactly when timestamps are |
| Layout.LoginLayout | pkg/login.go:27-52 | the place of every field of a login, and the digest of what |
| Login.LoginReqPkt.Pack | pkg/login.go:27-52 | the bytes, and the packet as it is rewritten, with the hash taken before padding and before a zero timestamp is replaced |
| Login.LoginReqPkt.Unpack | pkg/login.go:54-75 | the fields at their places; a short body is an error |
| Login.RoundTrip | pkg/login.go:27-75 | the login that arrives is the rewritten one, without its secret |
| Layout.LoginRespLayout | pkg/login.go:101-120 | the place of every field of a login response, and the digest of what |
| Login.LoginRespPkt.Pack | pkg/login.go:101-120 | the writer's bytes, and the digest that the packet is given |
| Login.LoginRespPkt.Unpack | pkg/login.go:122-136 | the reader's fields at their places; a short body is an error |
| Login.RespRoundTrip | pkg/login.go:101-136 | a login response survives, but for the fields that do not travel |
| Layout.RespLayout | pkg/submit.go:153-164 | the place of id and status in a Submit or Deliver response |
| SmallPkts.RespPkt.Pack | pkg/submit.go:153-164 | the writer's bytes of a Submit or Deliver response |
| SmallPkts.RespPkt.Unpack | pkg/submit.go:166-176 | the reader's fields of one; a short body is an error |
| Packets.RespRoundTrip | pkg/submit.go:153-176 | a Submit or Deliver response arrives with its id as ten bytes |
| Packets.RespIdSurvives | pkg/deliver.go:166-191 | that id survives exactly when it is twenty lower-case hexadecimal digits, zero bytes or not |
| Layout.QueryLayout | pkg/query.go:23-35 | the place of every field of a query |
| SmallPkts.QueryReqPkt.Pack | pkg/query.go:23-35 | the writer's bytes of a query, or the error of a string that does not fit |
| SmallPkts.QueryReqPkt.Unpack | pkg/query.go:37-45 | the reader's fields of one; a short body is an error |
| Packets.QueryArrives | pkg/query.go:23-45 | a query arrives with each string cut at its first zero byte |
| Packets.QueryRoundTrip | pkg/query.go:23-45 | a query that fits survives exactly when its strings have no zero byte |
| Layout.QueryRespLayout | pkg/query.go:74-95 | the place of every field of a query response, the eight counts in order |
| SmallPkts.QueryRespPkt.Pack | pkg/query.go:74-95 | the writer's bytes of a query response, or the error of a string that does not fit |
| SmallPkts.QueryRespPkt.Unpack | pkg/query.go:97-114 | the reader's fields of one, eight counts among them; a short body is an error |
| Packets.QueryRespArrives | pkg/query.go:74-114 | a query response arrives with each string cut at its first zero byte and all eight counts |
| Packets.QueryRespRoundTrip | pkg/query.go:74-114 | a query response that fits survives exactly when its strings have no zero byte |
| Packets.KindById | pkg/connection.go:188-215 | which kind of packet each of the twelve request ids gives, and that the packet bears the sequence id of its header |
| Packets.IdsByNumber | pkg/connection.go:162-165 | which ids pass the check of the header, and for which of them no packet is known |
| Framing.RecvByHeader | pkg/connection.go:152-225 | every way in which a receive in time ends, by the three words of the header, in numbers |
| Framing.TimeoutInBody | pkg/connection.go:173-183 | a timeout in a body is an error of its own and loses what was read |
| Framing.Framed | pkg/connection.go:152-225 | every well-formed packet of at most 2477 bytes bears its own length and a known id, and unpacks to what should arrive |
| Framing.FrameOne | pkg/connection.go:152-225 | one receive takes exactly that packet's bytes, whatever follows them |
| Framing.FrameStream | pkg/connection.go:152-225 | receiving over the concatenation of any list of such packets gives that list back and leaves what follows |
| Framing.TimeoutExactly | pkg/connection.go:152-170 | after a timeout that has taken k bytes of a header, the next receive gets the packet and leaves what follows exactly if k is zero, for every well-formed packet, whatever follows, and every k |
| Framing.ReceiveTakes | pkg/connection.go:172-225 | no packet is received from fewer bytes than its own fields and options need |
| Framing.LateInsideHeader | pkg/connection.go:153-160 | what happens instead: for 1, 2, 3, 4, 6 or 7 lost bytes the next receive fails on the length or the end |
| Framing.LateForgesPacket | server/server.go:321-323 | and for 8 it can return a packet that nobody sent |
| Connection.Conn.RecvAndUnpackPkt | pkg/connection.go:138-226 | does what the receive step says on every path, on open and closed connections, leaves the rest of the stream, and overwrites the front of the pooled buffer |
| Connection.Conn.ReadHeader | pkg/connection.go:152-165 | reads and checks a header, in the order of the code |
| Connection.UnpackNew | pkg/connection.go:190-225 | the new packet object holds what the body unpacks to, its option values being windows of the buffer |
| Connection.Conn.SendPkt | pkg/connection.go:105-121 | writes exactly the packed bytes, or an error and at most a proper prefix, or nothing on a closed connection |
| Connection.Conn.Close | pkg/connection.go:89-99 | closing twice is harmless, but closing again after the state was set back panics |
| Connection.Conn.SetState | pkg/connection.go:101-103 | sets the state and nothing else |
| Pool.Receive | pkg/connection.go:132-146 | after any run of receives on any connections through one buffer, with timeouts and failures, every packet still has all its own fields, its option values are windows, and the buffer holds the bodies laid over one another, whole or broken off |
| Pool.ReceivesAlone | pkg/connection.go:132-146 | each receive of such a run gives what it would give if its connection were the only one |
| Pool.SharedStreams | pkg/connection.go:132-225 | on each connection the packets sent are received in order, however its turns are mixed with those of others |
| Pool.OptionNow | pkg/options.go:104 | an option value of an earlier Submit or Deliver packet reads the buffer as it is now |
| Pool.OptionKept | pkg/options.go:104 | after the whole run a value is still what was received exactly if the last body to reach each of its places wrote the byte that was there |
| Pool.OptionAfterNext | pkg/options.go:104 | the next body keeps a value exactly when it agrees with it wherever they overlap |
| LongSms.Splitter.SplitLongSms | pkg/utils.go:161-192 | the chunks, each in new storage that no other chunk shares, and one step of the reference for long messages only |
| LongSms.Splitter.MakeChunk | pkg/utils.go:177-189 | the append to the shared header goes to new storage, since the literal has no room |
| LongSms.SplitByLength | pkg/utils.go:162-173 | content of up to 140 bytes is one chunk without a header; above, there are ceil(len/134) chunks |
| LongSms.ChunkLayout | pkg/utils.go:174-189 | each chunk byte by byte: the concatenation element with reference, total and number, then its 134 bytes or what is left |
| LongSms.PiecesMakeContent | pkg/utils.go:177-189 | the bodies are not empty, at most 134 bytes, and concatenate to the content |
| LongSms.ChunkShape | pkg/utils.go:161-192 | no chunk is longer than 140 bytes, and none of a long message is only a header |
| LongSms.EvenCuts | pkg/utils.go:181-185 | content of even length is only cut between two-byte units |
| LongSms.TotalIsExact | pkg/utils.go:174 | the total in the header is right exactly up to 34170 bytes |
| LongSms.SplitAll | pkg/utils.go:159-192 | over any run of splits, message i is split with the reference that the long messages before it leave, and its chunks keep their contents through the later splits |
| LongSms.RefMoves | pkg/utils.go:170-175 | that reference moves by one for each long message and not for short ones |
| LongSms.SameRef | pkg/utils.go:159-175 | two messages share a reference exactly when a multiple of 256 references lies between them |
| LongSms.AllChunksMakeContent | pkg/utils.go:174-189 | a bag that holds all chunks of a message, and no others with its reference, reassembles to the message exactly if there are at most 255 |
| LongSms.SameMessage | pkg/utils.go:159-175 | among 256 long messages the reference decides which one a chunk belongs to |
| LongSms.Reassembled | pkg/utils.go:159-192 | among up to 256 long messages, any order and repetition of the chunks reassembles to a message exactly if it has at most 255 chunks |
| MsgPkgs.GetMsgPkgs | pkg/utils.go:194-236 | new packets, one for each chunk of the encoded text, or the encoder's error |
| MsgPkgs.PkgRepeatsRequest | pkg/utils.go:207-232 | every packet repeats every field of the request, is marked as UCS2, and carries its chunk with its length and the four options |
| MsgPkgs.PkgFaithful | pkg/utils.go:208-232 | every packet of a well-formed request survives the codec, and its length field is right |
| MsgPkgs.PkgSize | pkg/utils.go:208-232 | the packed size, at most 2386 for up to 100 recipients, and exactly when the receiver's limit lets it pass |
| MsgPkgs.PkgNumbers | pkg/utils.go:229-230 | total and number in the options are right exactly up to 255 packets |
| MsgPkgs.SentIsGood | pkg/utils.go:208-232 | each packet of a request, for up to 100 recipients, passes the receiver and yields the right chunk |
| MsgPkgs.MessagesArrive | pkg/utils.go:194-236 | the packets of up to 256 long messages, interleaved in any order, are received as sent, each with all fields of its request and its numbers, and reassemble to a message exactly if it has at most 255 packets |
| MsgId.SequenceNums.Next | pkg/connection.go:59-64 | the number drawn, and the next one: one more, or 0 after 999999 |
| MsgId.SequenceNums.NextAll | pkg/connection.go:53-71 | any run of draws counts up in that way |
| MsgId.SequenceIds.Next | pkg/connection.go:33-50 | counts up modulo 2^32 |
| MsgId.DrawCounts | pkg/connection.go:59-64 | each number is one more than the last, and 0 follows 999999 |
| MsgId.DrawsRepeat | pkg/connection.go:59-64 | two draws are equal exactly when a multiple of a million lies between them |
| MsgId.IdLayout | pkg/utils.go:91-99 | the places of code, month, day, hour, minute and number in an id, and the base in which each is printed |
| MsgId.ParseIntReads | pkg/utils.go:97 | what is made of a gateway code of decimal digits, with or without a sign, beyond 24 bits too |
| MsgId.ShownIsDecimal | pkg/utils.go:50-65 | a gateway code is shown by its last six decimal digits |
| MsgId.UnpackGen | pkg/utils.go:91-109 | for a gateway code of six places, sign included, unpacking an id recovers clock and number, and zero for a negative code, exactly if the number is below 2^24 |
| MsgId.UnpackShifted | pkg/utils.go:91-109 | for any other code all is read one place late, and clock and number are recovered in one case only |
| MsgId.SpIdRecovered | pkg/utils.go:91-109 | for every code, clock and number, the gateway code is shown as given exactly when it was given as six decimal digits |
| MsgId.TwentyDigits | pkg/utils.go:91-99 | the id is twenty lower-case hexadecimal digits exactly when the gateway code is not negative and the number is below 2^24 |
| MsgId.GenInjective | pkg/utils.go:91-99 | an id with a code of six places determines code, clock and number, for every number |
| MsgId.DocumentedForm | pkg/utils.go:79-99 | for a code of six decimal digits and a number below a million, the id has the documented decimal form exactly if both are below ten |
| MsgId.DocumentedExampleFails | pkg/utils.go:88-99 | the id that the documentation gives as its example is not the one that is made |
| MsgId.DocumentedExample | pkg/utils.go:88-99 | the two, digit by digit |
| MsgId.IdsDistinct | pkg/connection.go:53-71 | of a million consecutive draws no two make the same id, whatever the clock does |
| Text.ParseDigits | pkg/utils.go:102-107 | digits are read as the number they stand for, or as the largest number there is |
| Text.ParseBad | pkg/utils.go:102-107 | something that is no digit makes zero of it all |
| Text.ParsePadded | pkg/utils.go:98-107 | a padded number parses back to itself |
| Server.EveryRun | server/server.go:244-336 | over every interleaving: at most n tests unanswered, the counter accounts for every test, replies in order and one each, and every end closes done once and then the connection |
| Server.RunKeeps | server/server.go:244-336 | the counter equation, the bound on tests, the single close and the reply ledger hold in every state that any run reaches |
| Server.StepCounted | server/server.go:257-298 | every step of either process keeps the counter equal to tests minus the pending increment minus answers, and the bound |
| Server.RaisedAfterOverdue | server/server.go:282-289 | serve leaves through exceed only after a load at which at least n tests were unanswered, or at which more than 2^31 answers that nobody had asked for had made the counter wrap |
| Server.PromptNeverRaises | server/server.go:282-295 | a peer that has answered each test by the next load, with at most 2^31 answers too many, is never given up, for n at least one |
| Server.SilentRaises | server/server.go:282-295 | a peer that never answers is sent at most n tests, and exactly the tick after the last raises the alarm |
| Server.StaysInLoop | server/server.go:310-335 | serve stays in its loop exactly if the event is not the alarm, a panic, a read that gives neither an accepted packet nor a header timeout, or the end of a packet whose handler failed or whose reply could not be sent |
| Server.OneRound | server/server.go:310-335 | a received and accepted packet is handled, replied to and finished, and then serve goes on if the handler has returned no error and leaves if it has |
| Server.AllServed | server/server.go:301-336 | for a peer whose packets are all accepted, a run serves every one of them, and serve is then in its loop on an open connection |
| Server.AlarmIsTaken | server/server.go:311-315 | when the ticker is sending on exceed, receiving that is all that serve can do, and else reading |
| Server.DecidedByBytes | server/server.go:108-240 | from the bytes of a packet: its reply, by the two ids of the header; whether it is refused, by the request id and the version byte of a login; and whether it answers a test |
| Server.CalmRunReplies | server/server.go:326-334 | every handled request has its reply once serve has moved on, also when its handler returned an error |
| Server.ClosingGoesOn | server/server.go:244-255 | on the way out exactly one step of serve is possible, nothing else moves it, and it comes closer to the end |
| Server.TickerCanEnd | server/server.go:280-288 | after serve has ended some run ends the ticker goroutine exactly when it is not on its way to send on exceed |
| Server.TickerCanStick | server/server.go:277-288 | after serve has ended some run leaves it stuck exactly when it is not gone and is on that way already, or the tests counted, the pending one included, have reached n |
| Server.EndsOrSticks | server/server.go:277-288 | a run from the start after which both can happen |
| Server.StuckIsReached | server/server.go:280-288 | for every n a run from the start leaves the ticker stuck: n tests unanswered, one more tick, and a peer that breaks off |
| Server.StuckForever | server/server.go:285-288 | once serve has ended, a ticker on its way to send on exceed stays there in every run |
| Server.EndsTicker | server/server.go:280-281 | from any other place it can go on to its end |
| Server.StreamIsServed | server/server.go:301-336 | for a peer that sends well-formed packets and then anything, the packets handled first are those in order, and the first replies are theirs in order |
| Server.ReplyAnswersBytes | server/server.go:108-267 | the bytes of a reply bear the sequence id that the bytes of the request bear, and the response id that belongs to its request id |
| Server.ReplyBytes | server/server.go:267 | the bytes of a reply bear the two ids that ReplyTo names |
| Outgoing.PeerReceivesAll | server/server.go:244-336 | over every run without a broken write, the peer receives from the bytes written exactly the packets of the run in order: its responses are the replies to the finished requests, one each and in order, its active tests those counted and at most one for the exit |
| Outgoing.PeerReceives | server/server.go:244-336 | over every run, it receives first the packets written before the first broken write |
| Outgoing.RequestsAnswered | server/server.go:301-336 | a peer that sends well-formed requests receives first the replies to them, in the order in which it sent them, with the ids that the bytes of the requests ask for |
| Outgoing.WiredRunKeeps | server/server.go:244-336 | in every state of every run the written bytes carry the log, and the log accounts for the replies, the tests and the exit |
| ServerConn.ServerConn.ReadPacket | server/server.go:100-242 | is the step Read of the protocol: accepts and refuses packets as stated, Submit and login responses among the refused, and prepares the reply with the sequence id in the header of the request |
| ServerConn.EmptyReplyIsBlank | server/server.go:108-230 | a reply starts out with the sequence id of its request, and with zeros and empty strings otherwise |
| ServerConn.ServerConn.FinishPacket | server/server.go:257-268 | is the step Finish: counts an answer down, or writes the reply, whole or broken off, or does nothing |
| ServerConn.ServerConn.Tick | server/server.go:282-295 | is the steps Load, SendTest and Add: wants to signal exceed exactly when the counter has reached n, else writes a test, whole or broken off, and counts it if whole |
| ServerConn.ServerConn.Close | server/server.go:244-255 | is the steps SendExit, CloseDone and CloseConn: writes the exit packet, whole or broken off, and closes done and the connection in any case; a second call panics |
| EndToEnd.ReportArrives | examples/server/main.go:66-94 | every field of the status report that arrives, its text of 122 bytes literally, and its options |
| EndToEnd.ReportIdMatches | examples/server/main.go:56-99 | the id in the status report that arrives is the one in the Submit response, zero bytes or not; the Deliver packet's own id is that exactly when it has none |
| EndToEnd.ServerIdIsId | examples/server/main.go:63 | every id that the example server makes is one of those |
| EndToEnd.SamePreimage | pkg/login.go:33-43 | the server hashes what the client hashed exactly when the id needs no padding and the timestamp is not replaced |
| EndToEnd.LoginWorks | examples/server/main.go:19-54 | which logins with the password 12345678 are accepted under every digest: those with the id 100 in its padded form and a timestamp that packing does not replace |
| EndToEnd.LoginArrives | pkg/connection.go:152-225 | every login is framed and received as rewritten |
| EndToEnd.RepackIdempotent | pkg/login.go:27-52 | when packing a login twice changes nothing more, under every digest |

## Left out

- Sockets, keep-alive, deadlines as times, the accept loop and its backoff, dialling and logging: input and output only.
- The client beyond receiving: it adds nothing that the receive step does not say.
- MD5 itself, and the response authenticator's agreement with `GenAuthenticatorServer`: the two hash different bytes and nobody compares them.
- The text encoders and decoders: library code. No chunk is claimed to decode on its own, since a surrogate pair may lie across a cut.
- `String()` printers, status texts and tag names: display only.
- A received packet without variable parts is handed on as a value, after its object has been unpacked.
- The contents of a packet after an `Unpack` that failed are stated only as far as the data was complete.
- A handler may fill in the reply, return an error or panic; that it replaces the reply by another kind of packet, or changes the sequence id or closes the connection, is not part of the model.
- Goroutines that a handler starts, such as the one that sends the example's status reports, do not interleave with the server's two processes in `Server`.
- The steps of the server are atomic: a connection that is closed between the state check and the write of a test makes that send fail, as it would if it were closed before.
- Closing the connection closes the two generators' channels together; draws from a closed generator are not modelled.
- `math.Ceil` on a float is integer division rounded up; the two agree below 2^53 bytes.
