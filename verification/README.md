# libfaim: message digests, wire codec, queues and indexes

libfaim speaks OSCAR, the protocol behind AOL Instant Messenger. This project models the
parts of it that keep state, move bytes or walk untrusted records, in Dafny, and proves what
they promise for every input, every message and every run.

- **MD5** (`Md5Spec.dfy`, `Md5Laws.dfy`, `Md5.dfy`). `Md5Spec` is sections 3.1 to 3.5 of RFC 1321 as
  functions: pad the whole message, fold over its blocks, serialise. `Md5Laws` pins its pieces:
  bitwise laws, byte order, and the published digest of the empty message. `Md5` is the streaming
  implementation with its carry buffer, its two-word bit count and its 64 unrolled steps,
  proved to compute the specification's digest however the message is cut into chunks, as long
  as its `int` arithmetic lasts.
- **Wire codec** (`Octets.dfy`, `ByteStream.dfy`, `Tlv.dfy`, `UserInfo.dfy`, `Icbm.dfy`,
  `Chat.dfy`). A `Cursor` is the value of a bounded byte stream and the class `Bstream` the
  stream updated in place. On top of it stand TLV chains, frozen chains, user information
  with capability blocks, instant messages and chat messages. Builders and parsers are
  proved to undo each other, with the exact bounds at which they stop doing so.
- **Engine** (`Flap.dfy`, `Connection.dfy`, `Dispatch.dfy`, `Engine.dfy`, `ReceiveOrder.dfy`,
  `Session.dfy`, `Runs.dfy`).
  FLAP framing over sockets that move any number of bytes at a time; module and callback
  dispatch; and the session's connection list and queues. `Engine` is the state machine and
  holds the invariants over all runs and the order of sending, `ReceiveOrder` the order of
  receiving, `Runs` the other properties of runs; `Session` is the object whose methods carry the
  steps out in place.
- **Indexes and scanners** (`Snac.dfy`, `MsgCookie.dfy`, `Tokenizer.dfy`, `Visibility.dfy`,
  `ScreenName.dfy`). The SNAC hash and the cookie list as maps, the tokenizer and the packet
  built with it, and screen name comparison.

Each operation that changes state is a method whose contract ties the new state to a function
of the old one; the lemmas are about those functions. Integers are unbounded in Dafny, so the
places where C keeps 8, 16 or 32 bits say so (`Low8`, `Low16`, `%`). A loop that C code may
never leave ends in a result of its own: `Diverges` for the TLV chain and for the TLVs of an
instant message, each proved to mean exactly that no number of rounds ends the loop, and `Spins`
for what reads such a chain. Where C code leaves its buffers, the result says so too (`Overrun`,
`Crash`, `ok` in `Md5`).

What comes from outside is a parameter: clock readings, random cookies, SNAC ids where the
cache is not the subject, the answers of `send` and `recv`, and the results of callbacks.

## Where code and documentation differ

The model follows the code.

- Screen name comparison is documented as ignoring spaces (src/util.c:129-140); a difference in
  trailing spaces is not ignored. `ScreenNames.InsertedSpace` says exactly which spaces count.
- aim_putuserinfo is documented as the inverse of aim_extractuserinfo (src/info.c:534-536).
  `membersince` goes out under type 2 and is read back as `createtime`, and one of the 17
  capabilities is lost. `UserInfos.InverseExactly` says for which structures it is an inverse.
- md5_append adds the buffered bytes to the length of the new ones in an `int`. When the sum is
  2^31 or more it writes behind its 64-byte buffer; `Md5.Md5State.Append` and `Md5.DigestChunks`
  say exactly when. The wrap-around of that sum and of the bit count shifted out of an `int` is
  what two's complement machines do; C leaves both undefined.
- The capability table has 17 entries and the buffer for sending them room for 16
  (`UserInfos.CapabilitiesArrive`).
- A TLV chain is read back in reverse, so "the n-th record" counts from the end of the wire
  (`Tlvs.NthFromEnd`).
- Reading a chain never ends when one or three bytes are left over (`Tlvs.ReadOutcome`).
- A FLAP frame with a payload above 65529 bytes does not get onto the wire, although its length
  field could express 65535 (`Flap.FrameRoundTrip`); one of 65530 bytes is lost without an error.
- In immediate mode a frame can overtake queued ones (`Engine.StepFifo` says exactly when,
  `Engine.CallbackOvertakes` gives a run).
- Frames of one connection are handed out in the order of their receipt as long as none is kept:
  one that nobody took stays in the queue and those behind it pass it
  (`ReceiveOrder.DispatchOrder` says exactly when, `ReceiveOrder.KeptIsOvertaken` gives an input).
- Two modules register no SNAC handler and are called through NULL (`Dispatch.NullExactly`).

## Model

| member | source | states |
|---|---|---|
| `Md5.StepIsOperation` | src/md5.c:210-312 | an unrolled step with its table entries is the operation of section 3.4 of RFC 1321, up to the rotation of the registers |
| `Md5.Quad` | src/md5.c:216-233 | four unrolled steps with the roles abcd, dabc, cdab, bcda are four operations of the specification, with the roles back in place |
| `Md5.Round1` | src/md5.c:210-234 | the 16 unrolled steps of round 1 are operations 0 to 15 of the specification |
| `Md5.Round2` | src/md5.c:236-260 | the 16 unrolled steps of round 2 take the state after 16 operations to the state after 32 |
| `Md5.Round3` | src/md5.c:262-286 | the 16 unrolled steps of round 3 take the state after 32 operations to the state after 48 |
| `Md5.Round4` | src/md5.c:288-312 | the 16 unrolled steps of round 4 take the state after 48 operations to the state after 64 |
| `Md5.LoadWords` | src/md5.c:182-187 | the byte-order independent loop yields the 16 little-endian words of the block |
| `Md5Laws.OctetsOfAssembled` | src/md5.c:182-187 | four octets make up a word low-order octet first, and writing that word gives them back |
| `Md5Laws.WordsAndOctets` | src/md5.c:182-187 | each word taken from a block, written out again, is the same four octets of the block |
| `Md5Laws.OctetsAreDigits` | src/md5.c:390-391 | the octets of a word are its digits to the base 256, low-order digit first |
| `Md5Laws.FChooses` | src/md5.c:213 | F takes the bits of y where x is set and those of z elsewhere, stated without F |
| `Md5Laws.GChooses` | src/md5.c:239 | G takes the bits of x where z is set and those of y elsewhere |
| `Md5Laws.HIsParity` | src/md5.c:265 | H is z where x and y agree and its opposite elsewhere, bit by bit |
| `Md5Laws.IInverts` | src/md5.c:291 | I turns over the bits of y exactly where x is set or z is not |
| `Md5Laws.RotatesInRounds1And2` | src/md5.c:208 | the two shifts of the eight amounts of rounds 1 and 2 are a rotation |
| `Md5Laws.RotatesInRounds3And4` | src/md5.c:208 | the same for rounds 3 and 4 |
| `Md5Laws.AllOperations` | src/md5.c:210-312 | the 64 operations on the padded empty message, with every constant, shift and index, lead to four registers given as numbers |
| `Md5Laws.EmptyDigest` | src/md5.c:371-392 | the digest of the empty message is d41d8cd98f00b204e9800998ecf8427e, as in the test suite of RFC 1321 |
| `Md5.Md5State.constructor` | src/md5.c:323-331 | a new state has absorbed the empty message |
| `Md5.Md5State.Process` | src/md5.c:165-321 | the 64 unrolled steps and the final additions are the compression of RFC 1321, for every state and block |
| `Md5.Md5State.AddToCount` | src/md5.c:344-348 | the two count words hold 8 times the new length modulo 2^64, carry included |
| `Md5.Md5State.FillPartial` | src/md5.c:350-360 | topping up a partial block processes it exactly when it reaches 64 bytes and otherwise leaves the tail in the buffer; it writes behind the buffer exactly when offset and length do not add up in an int |
| `Md5.Md5State.AppendAligned` | src/md5.c:362-368 | whole blocks are compressed and the tail is kept at the start of the buffer |
| `Md5.Md5State.Append` | src/md5.c:333-369 | keeps the invariant that counts, registers and buffer describe the message so far, extended by the bytes given; not ok exactly when the buffered and the new bytes do not add up in an int |
| `Md5.OffsetIsTail` | src/md5.c:338-352 | the offset computed from the low count word is the length of the unprocessed tail |
| `Md5.CountsAdvance` | src/md5.c:339-348 | adding to the two count words with a carry is addition modulo 2^64 |
| `Md5.Md5State.PadCount` | src/md5.c:386-387 | the pad length brings the message to 56 modulo 64 |
| `Md5.Md5State.SaveLength` | src/md5.c:383-385 | the eight saved bytes are the 64-bit bit length, low-order byte first |
| `Md5.Md5State.Finish` | src/md5.c:371-392 | finishing by two more appends and the output loop yields the digest RFC 1321 defines for the whole message |
| `Md5.WriteDigest` | src/md5.c:390-391 | the loop writes the four registers low-order byte first |
| `Md5.DigestChunks` | src/md5.c:323-392 | one append per chunk and a finish give the digest of the concatenation for every list of chunks that each add up with the bytes buffered before, and for no other |
| `Md5.WhenChunksSum` | src/md5.c:350-353 | chunks of at most 2^31 - 64 bytes always add up; one byte and then 2^31 - 1 bytes do not |
| `Md5.AsciiAt` | src/auth.c:319-330 | every character of the constant goes into the digest as its code |
| `Md5.EncodePassword` | src/auth.c:319-330 | the digest of key, password and constant as far as their lengths survive as an int, unless the password does not add up with the buffered key |
| `Octets.GetPut16` | include/aim.h:1046-1050 | a 16-bit value survives writing and reading |
| `Octets.GetPut32` | include/aim.h:1051-1061 | a 32-bit value survives writing and reading |
| `Octets.HighByteFirst` | include/aim.h:1046-1061 | the high-order byte goes first, of 16 and of 32 bits |
| `ByteStream.Bstream.constructor` | src/rxqueue.c:66-77 | the length is kept in 16 bits |
| `ByteStream.Bstream.SetPos` | src/rxqueue.c:89-98 | a position behind the end is refused and changes nothing; a negative one is taken and cut to 16 bits |
| `ByteStream.Bstream.Advance` | src/rxqueue.c:108-117 | moves by n or not at all; a negative count moves back, in 16 bits |
| `ByteStream.Bstream.Get8` | src/rxqueue.c:119-128 | the byte at the position; 0 and no movement at the end |
| `ByteStream.Bstream.Get16` | src/rxqueue.c:130-139 | the big-endian value at the position; 0 and no movement when it does not fit |
| `ByteStream.Bstream.Get32` | src/rxqueue.c:141-150 | the big-endian value at the position; 0 and no movement when it does not fit |
| `ByteStream.Bstream.GetRaw` | src/rxqueue.c:251-276 | the next n bytes, or none and no movement |
| `ByteStream.Bstream.Put8` | src/rxqueue.c:185-194 | writes one byte or nothing and changes no other byte |
| `ByteStream.Bstream.Put16` | src/rxqueue.c:196-205 | writes two bytes or nothing and changes no other byte |
| `ByteStream.Bstream.Put32` | src/rxqueue.c:207-216 | writes four bytes or nothing and changes no other byte; reports 1 where its siblings report the size |
| `ByteStream.Bstream.PutRaw` | src/rxqueue.c:295-305 | writes all the bytes or none |
| `ByteStream.Bstream.PutBs` | src/rxqueue.c:307-321 | copies n bytes between streams, or leaves both alone |
| `ByteStream.PutAllFits` | src/rxqueue.c:185-305 | a series of puts drops nothing exactly when its total length fits, and then the stream holds the chunks one after the other |
| `ByteStream.PutThenRead` | src/rxqueue.c:251-305 | reading from where a put started gives the bytes put and ends where the put ended |
| `Tlvs.ReadChain` | src/tlv.c:46-107 | the loop computes the chain function: the records in reverse, rejection, or no end |
| `Tlvs.DivergesMeansForever` | src/tlv.c:53-101 | the diverging outcome holds exactly when no number of iterations ends the loop; every other one is reached within as many iterations as there are bytes |
| `Tlvs.OneByteIsStuck` | src/tlv.c:58-59 | with one byte left an iteration consumes nothing |
| `Tlvs.DecomposeUnique` | src/tlv.c:46-107 | a buffer splits in only one way into whole records and a remainder that holds none |
| `Tlvs.DecomposeWhole` | src/tlv.c:46-107 | every buffer is such records and such a remainder |
| `Tlvs.ReadCharacterised` | src/tlv.c:46-107 | the outcome is decided by the length of that remainder, and the records come back reversed |
| `Tlvs.ReadOutcome` | src/tlv.c:46-107 | for every buffer: no end exactly when 1 or 3 bytes are left behind its whole records, rejection exactly when an over-long record is, the reversed chain otherwise |
| `Tlvs.ReadWritten` | src/tlv.c:46-107 | reading what was written gives the reversed chain |
| `Tlvs.RecordLayout` | src/tlv.c:390-413 | a record on the wire is its type and its length, high-order byte first, and its value |
| `Tlvs.GetTlv` | src/tlv.c:428-443 | the n-th record of a type in list order, or none |
| `Tlvs.NthFromEnd` | src/tlv.c:428-443 | on a chain that was read, the n-th record of a type is the n-th from the end of the wire |
| `Tlvs.NthFromEndMissing` | src/tlv.c:428-443 | none exactly where the wire holds fewer than n |
| `Tlvs.NthIfAny` | src/tlv.c:428-443 | the first record of a type is found exactly when the wire holds one |
| `Tlvs.TlvChain.AddRaw` | src/tlv.c:194-224 | appends a record with the first l bytes of the value |
| `Tlvs.TlvChain.Size` | src/tlv.c:169-181 | the size is the number of bytes the chain takes on the wire |
| `Tlvs.TlvChain.WriteTo` | src/tlv.c:390-413 | writes the whole chain or nothing |
| `Tlvs.TlvChain.AddFrozen` | src/tlv.c:352-375 | appends a record whose value is the inner chain's bytes, as far as 16 bits carry its size |
| `UserInfos.GetCap` | src/info.c:233-268 | the loop computes the set of known identifiers in the block, with its early exit |
| `UserInfos.LookupEntry` | src/info.c:138-226 | every table entry is found under its own identifier, so no two collide |
| `UserInfos.AolCodes` | src/info.c:150-171 | five entries of the table by flag, as the AOL identifier with one byte of their own |
| `UserInfos.MoreAolCodes` | src/info.c:173-200 | five more of them |
| `UserInfos.OddCodes` | src/info.c:143-204 | the entries for chat, the second form of games, and RTF |
| `UserInfos.StrangeCodes` | src/info.c:206-212 | the entries for an unknown feature and for the empty identifier |
| `UserInfos.ForeignCodes` | src/info.c:214-223 | the entries for encryption and for APs |
| `UserInfos.GetCapWritten` | src/info.c:233-268 | reading written identifiers gives back their bits and stops at the end of the block |
| `UserInfos.PutCap` | src/info.c:270-288 | the loop is the fold over the table, stopping when the stream is full |
| `UserInfos.PutCapWrites` | src/info.c:270-288 | appends the identifiers of the chosen capabilities in table order, as many as fit whole |
| `UserInfos.CapabilitiesArrive` | src/tlv.c:302-315 | the capabilities sent are the ones set if and only if all are known and not all known ones are set |
| `UserInfos.ExtractUserInfo` | src/info.c:318-532 | the loop over the records computes the field-by-field reading, with its failures |
| `UserInfos.ReadField` | src/info.c:359-525 | each record type sets its own field and bit and moves the stream accordingly |
| `UserInfos.Apply16` | src/info.c:359-415 | what the records of 16 bits, types 1 and 4, set |
| `UserInfos.Apply32` | src/info.c:376-497 | what the records of 32 bits, types 2, 3, 0x000f and 0x0010, set |
| `UserInfos.ApplyMemberSince` | src/info.c:417-428 | a record 5 sets membersince and its bit and nothing else |
| `UserInfos.ApplyIcqStatus` | src/info.c:430-440 | a record 6 sets the ICQ status from its second half and its bit |
| `UserInfos.ApplyIcqAddress` | src/info.c:441-450 | a record 0x000a sets the address and its bit |
| `UserInfos.ApplyIcqData` | src/info.c:451-461 | a record 0x000c sets the ICQ data and its bit |
| `UserInfos.FieldLocal` | src/info.c:350-529 | a record is read on its own bytes only, whatever follows it |
| `UserInfos.Ignored` | src/info.c:472-529 | a record of a type that is not read changes no field, and reading goes on behind it |
| `UserInfos.BuildInfoChain` | src/info.c:550-572 | the chain holds the present fields in order, with membersince under type 2 and no capability record when none is set |
| `UserInfos.InfoTypes` | src/info.c:550-572 | which record types the chain holds, in their order: one for each present field, and the session length under 0x0010 for AOL users and 0x000f for others |
| `UserInfos.PutUserInfo` | src/info.c:537-579 | writes name, warning level, record count and chain |
| `UserInfos.FieldsWritten` | src/info.c:350-529 | a run of written records is read field by field, each on its own bytes only, whatever follows |
| `UserInfos.ExtractWritten` | src/info.c:318-579 | reading a written block recovers every present field and bit, delivers membersince as createtime, and stops exactly at its end |
| `UserInfos.ServerBlockRead` | src/info.c:318-532 | a block in which a server puts all ten fields is recovered whole, and reading stops at its end |
| `UserInfos.InverseExactly` | src/info.c:534-579 | reading inverts writing if and only if membersince, createtime and the ICQ fields are absent and the capabilities, when present, are some but not all of the known ones |
| `UserInfos.NotRecovered` | src/info.c:534-579 | a structure with only membersince comes back with createtime instead, and one with all capabilities loses one |
| `UserInfos.EncodedSize` | src/info.c:537-579 | a block takes at most 333 bytes |
| `UserInfos.InfoRoundTrip` | src/info.c:318-579 | writing and then reading from the same place recovers the structure and ends where the writer ended |
| `Icbm.Mpmsg.AddSection` | src/im.c:846-872 | sections stay in order of addition |
| `Icbm.CountMsgTlv` | src/im.c:176-195 | the loop adds up the size of the message TLV |
| `Icbm.CheckDecides` | src/im.c:164-174 | which arguments are accepted, refused, and refused as too big |
| `Icbm.FeaturesDecided` | src/im.c:151-246 | the features sent are the caller's own or 1, 1, 1, 2 |
| `Icbm.SingleSection` | src/im.c:260-292 | a single message is one section with the whole text, in the given character set or, by its flags, 2, else 3, else 0 |
| `Icbm.EnvelopeLayout` | src/im.c:203-226 | the bytes of SNAC header, cookie, channel and destination |
| `Icbm.SectionLayout` | src/im.c:238-291 | the bytes in front of the features and of each text |
| `Icbm.OptionTypes` | src/im.c:294-333 | which records follow the message block, by the flags asked for |
| `Icbm.OptionsRise` | src/im.c:294-333 | they follow in the order of their types |
| `Icbm.IconLayout` | src/im.c:318-325 | the bytes of the icon record |
| `Icbm.MsgTlvLenExact` | src/im.c:176-285 | the precomputed size is the number of bytes put inside the message TLV, for every feature string and section list |
| `Icbm.BufferSuffices` | src/im.c:198-333 | no put is dropped exactly when name and options fit the 128 spare bytes; 71 bytes of name always do |
| `Icbm.ImBytes` | src/im.c:204-333 | the frame is the envelope and a well-formed chain of TLVs |
| `Icbm.SendImExt` | src/im.c:149-341 | checks the arguments as the code does and performs exactly these puts on a new buffer; a frame that fits holds the envelope and the chain |
| `Icbm.ParseMsgs` | src/im.c:954-1070 | the loop yields the sections in order and the message of the best readable one |
| `Icbm.FindReadable` | src/im.c:1017-1062 | the search over the priorities finds the best section |
| `Icbm.BestIsFirst` | src/im.c:1017-1062 | the best section is the first of its character set, and none has one of higher priority 0, 3, 2 |
| `Icbm.BestCharset` | src/im.c:954-962 | ASCII is chosen before ISO-8859-1 and that before Unicode |
| `Icbm.SectionsParsed` | src/im.c:966-1001 | parsing the bytes of sections gives the sections back in order |
| `Icbm.MessageRead` | src/im.c:1096-1120 | the message TLV gives back features and sections |
| `Icbm.IncomingCh1` | src/im.c:1072-1187 | the TLV loop computes the argument record, or never ends |
| `Icbm.Ch1Stuck` | src/im.c:1089-1094 | with one byte left an iteration consumes nothing |
| `Icbm.RecordRead` | src/im.c:1121-1176 | what a record of each type other than message and icon changes, and that reading goes on behind it |
| `Icbm.Ch1Forever` | src/im.c:1089-1177 | the diverging outcome holds exactly when no number of rounds ends the loop |
| `Icbm.Ch1Outcome` | src/im.c:1089-1177 | for whole records and a rest shorter than a header: the buffer is overrun exactly when a message block is said to go on behind it or the rest starts one, and the loop never ends exactly when otherwise 1 or 3 bytes are left |
| `Icbm.StepOverLong` | src/im.c:1096-1176 | an over-long record does not end the loop: reading goes on where its own field ended |
| `Icbm.TlvsRead` | src/im.c:1089-1177 | a chain of emitted TLVs is read one by one, each landing on the next |
| `Icbm.ImRoundTrip` | src/im.c:149-1187 | the receiver recovers features, sections in order, flags and icon (its flag exactly when its length is not zero), and the message is the best section |
| `Icbm.SingleRoundTrip` | src/im.c:149-1187 | the receiver of a single message gets the sender's text, unless a character set of the caller's own is one it cannot read, and learns the encoding the sender asked for |
| `Chat.BuildOuter` | src/chat.c:168-194 | the chain with its optional TLVs and the frozen message block |
| `Chat.SendIm` | src/chat.c:121-204 | the frame's bytes: header, cookie, channel and the chain whole or not at all |
| `Chat.FrameLayout` | src/chat.c:137-196 | the bytes of SNAC header, cookie and channel, and the chain behind them |
| `Chat.FlagsWritten` | src/chat.c:170-180 | read back from the wire, record 6 is there exactly when the message is to be reflected and record 7 exactly when it was sent while away |
| `Chat.ChainWritten` | src/chat.c:185-196 | the chain is written exactly when the text keeps within the limit |
| `Chat.ReceiveMsg` | src/chat.c:615-708 | drops the message's cookie from the cache and computes the sender and the text, or ignores, crashes or never ends |
| `Chat.CookieSpent` | src/chat.c:630-633 | the message's cookie, of type 5, is cached no more, and every other one is |
| `Chat.RelayedMessage` | src/chat.c:646-703 | of a message the server passes on the client gets the sender's information out of record 3 and the text |
| `Chat.InnerRead` | src/chat.c:682-698 | the frozen chain yields the text |
| `Chat.ChatRoundTrip` | src/chat.c:121-708 | the text arrives if and only if it has at most 1120 bytes, less 4 for each of the two optional TLVs |
| `Snacs.PutSnac` | src/snac.c:137-146 | family, subtype, flags and id in order |
| `Snacs.HeaderLayout` | src/snac.c:137-146 | the ten bytes of the header, each number high-order byte first |
| `Snacs.Unlink` | src/snac.c:89-97 | the walk over a bucket takes out the first entry with the id and nothing else |
| `Snacs.Sweep` | src/snac.c:120-131 | the walk over a bucket drops the old entries and keeps the order of the others |
| `Snacs.SnacCache.CacheSnac` | src/snac.c:31-73 | the entry goes to the front of its bucket under the next id, which wraps at 32 bits |
| `Snacs.SnacCache.RemSnac` | src/snac.c:82-98 | returns the entry and takes it out of its bucket |
| `Snacs.SnacCache.CleanSnacs` | src/snac.c:107-135 | every bucket loses its old entries |
| `Snacs.InsertRefines` | src/snac.c:54-73 | adding an entry is a map update if and only if its id is not outstanding |
| `Snacs.RemoveRefines` | src/snac.c:82-98 | taking out an entry removes it from the map and touches no other id |
| `Snacs.CleanRefines` | src/snac.c:107-135 | cleaning removes exactly the entries older than maxage |
| `Snacs.HashIsMap` | src/snac.c:31-135 | the 16 buckets hold a map from id to entry throughout a run if and only if no id is given out while it is outstanding, and then answer as that map |
| `Snacs.HashIsMapAtFirst` | src/snac.c:31-135 | that is so in every run that caches at most 2^32 SNACs |
| `Snacs.TakenOnce` | src/snac.c:82-98 | an entry is handed out once, whatever happens afterwards |
| `MsgCookies.CookieCache.CheckCookie` | src/msgcookie.c:120-131 | finds the first cookie with the key |
| `MsgCookies.CookieCache.CacheCookie` | src/msgcookie.c:30-51 | renews this very cookie (1) or replaces what was under its key (0); no key twice, nothing freed stays linked |
| `MsgCookies.CookieCache.UncacheCookie` | src/msgcookie.c:63-80 | returns the cookie and unlinks it without freeing it |
| `MsgCookies.CookieCache.DropCookie` | src/chat.c:630-633 | the cookie found leaves the list and is freed, and no freed one stays linked |
| `MsgCookies.CookieCache.CookieFree` | src/msgcookie.c:161-179 | unlinks this very object and frees it |
| `MsgCookies.Take` | src/msgcookie.c:70-77 | the walk takes out the first cookie with the key |
| `MsgCookies.CheckUncached` | src/msgcookie.c:63-80 | afterwards the key is absent and every other key is as before |
| `MsgCookies.CheckCached` | src/msgcookie.c:30-51 | caching changes no key but its own |
| `MsgCookies.CachedIs` | src/msgcookie.c:30-51 | no key is there twice after caching |
| `MsgCookies.RunRefines` | src/msgcookie.c:30-179 | over every run the list answers as a map on cookie and type, return codes included |
| `Tokenizer.ItemCount` | src/util.c:46-61 | the number of tokens |
| `Tokenizer.ItemAt` | src/util.c:63-101 | the token with that number, nothing beyond the last |
| `Tokenizer.TokensLength` | src/util.c:22-44 | the total length of the first index tokens, at least one, at most all |
| `Tokenizer.SplitJoin` | src/util.c:22-101 | the tokens are the only delimiter-free strings that joined give the text |
| `Tokenizer.TokensTotal` | src/util.c:22-61 | tokens and delimiters account for every byte |
| `Visibility.ChangeVisibility` | src/bos.c:97-137 | the frame of the computed length with exactly these puts, or none for an unknown change |
| `Visibility.PackLengthSuffices` | src/bos.c:113-131 | the computed length covers the header and every token sent |
| `Visibility.PacketFits` | src/bos.c:113-131 | no put is dropped exactly when the items fit the 16-bit length, so never under 65536 bytes |
| `Visibility.ChangeRead` | src/bos.c:97-122 | the server sees family 9 and subtype 5, 6, 7 or 8 for the four changes |
| `Visibility.DecodeItems` | src/bos.c:124-131 | the counted strings decode to the tokens exactly when each has at most 255 bytes |
| `Visibility.VisibilityRoundTrip` | src/bos.c:113-131 | the payload of a packet that fits decodes to the tokens sent exactly when each has at most 255 bytes |
| `Visibility.DocumentedForm` | src/bos.c:69-70 | a list with '&' behind every name sends all of its names, up to 99 |
| `ScreenNames.Length` | src/util.c:111-127 | the number of characters that are not spaces |
| `ScreenNames.Compare` | src/util.c:142-170 | 0 exactly for names equal without spaces and in upper case that end in the same number of spaces |
| `ScreenNames.Equivalence` | src/util.c:142-170 | that relation is an equivalence |
| `ScreenNames.CaseIgnored` | src/util.c:142-170 | another character in the place of one that is not a space leaves the name the same exactly when it is the same letter in the other case |
| `ScreenNames.InsertedSpace` | src/util.c:129-170 | an added space is ignored if and only if something other than spaces follows it |
| `Flap.AimSend` | src/txqueue.c:210-228 | what goes out is a prefix of the buffer, and the result says how much, for every behaviour of send |
| `Flap.SendingIs` | src/txqueue.c:210-228 | everything goes out exactly when the result is the length asked for, and always when every send moves something |
| `Flap.AimRecv` | src/rxqueue.c:19-37 | the front of the stream, or a failure |
| `Flap.ReceivingIs` | src/rxqueue.c:19-37 | what comes is the front of the stream however it was cut up; with a steady socket it fails only where the stream is too short |
| `Flap.SendFrame` | src/txqueue.c:262-297 | hands header and payload to the socket and reports an error exactly when not all of it went out |
| `Flap.SendQueue` | src/txqueue.c:262-297 | frames sent one after the other put on the wire what the fold of the send loop over them says |
| `Flap.FramesSent` | src/txqueue.c:210-297 | the bytes are those of all frames exactly when no frame was cut short, and none is when every send moves something |
| `Flap.FramePutIs` | src/txqueue.c:268-285 | the stream built for a frame, including the remains of the header when its 16-bit length wraps around |
| `Flap.GetCommand` | src/rxqueue.c:377-456 | the frame at the front of the stream, or a closed connection |
| `Flap.CommandIs` | src/rxqueue.c:377-440 | the connection is closed exactly when the first byte is not 0x2a or the stream is too short, and the frame is cut out of the stream by its length, however the stream is cut up |
| `Flap.FrameRoundTrip` | src/txqueue.c:210-297 | a frame given to the send loop comes out of the receive loop, however both cut up the stream and whatever follows it, if and only if its payload has at most 65529 bytes and no send gave up |
| `Flap.StreamRoundTrip` | src/rxqueue.c:347-461 | a list of frames sent through any sequence of partial sends and read through any sequence of partial receives comes back in order, leaving the rest of the stream, if and only if every payload fits and no send gave up |
| `Connections.FindHandler` | src/rxhandlers.c:456-478 | the callback for the SNAC, or else the default one of its family |
| `Connections.HandlerAdded` | src/rxhandlers.c:401-478 | a registration takes effect exactly when it is the first for its SNAC, or the first default and there is no other |
| `Dispatch.OfferModules` | src/rxhandlers.c:98-146 | the loop over the modules makes the calls of the specification, in order |
| `Dispatch.OfferedIs` | src/rxhandlers.c:98-146 | the modules called are the first ones concerned; all but the last returned 0, and the last one did not exactly when the SNAC was taken |
| `Dispatch.MiscIsLast` | src/conn.c:896-916 | the modules concerned by a family are its own and then the catch-all |
| `Dispatch.OwnIs` | src/conn.c:896-916 | each loaded family has exactly one module of its own and every other family none |
| `Dispatch.OwnComesFirst` | src/rxhandlers.c:111-120 | a SNAC of a loaded family goes to that family's module first and to the catch-all only if it returned 0; one of any other family goes to the catch-all at once |
| `Dispatch.CatchAllComesLast` | src/rxhandlers.c:111-120 | a SNAC gets to the catch-all only after its own modules were called and returned 0 |
| `Dispatch.NullExactly` | src/rxhandlers.c:117-118 | a missing handler is called exactly for the families of invite and translate |
| `Dispatch.HandleFrame` | src/rxhandlers.c:528-585 | what the dispatcher does to one frame, branch by branch, with the modules called on the way and the last chance |
| `Dispatch.LastChanceIsMisc` | src/rxhandlers.c:569-585 | a SNAC that none of its modules took, and a frame on a channel without a handler, end with one more call of the catch-all and are handled whatever it returns |
| `Dispatch.SnacGoesHome` | src/rxhandlers.c:98-123 | a SNAC goes to the module of the family in its first two bytes, then to the catch-all, then to the catch-all again, each until one takes it |
| `Dispatch.OneKeeps` | src/rxhandlers.c:528-585 | a frame stays exactly when it came on channel 1 or 4 of a FLAP connection and whoever got it returned 0 in the 8 bits kept; a crash happens exactly for SNACs of the two families without handler |
| `Dispatch.AuthPassed` | src/rxhandlers.c:125-165 | a negotiation frame of the old login is passed over exactly when the two modules asked returned 0 |
| `Dispatch.KeptResumes` | src/rxhandlers.c:528-568 | a kept frame is read on from where the last callback left it |
| `Dispatch.MisplacedIgnored` | src/rxhandlers.c:528-545 | a frame of the other framing, or on a rendezvous connection, is done with and calls nobody |
| `Dispatch.DispatchConserves` | src/rxhandlers.c:517-597 | what is left in the queue are exactly the frames that stay, in their order |
| `Engine.StepKeeps` | src/txqueue.c:352-434 | every step keeps the invariant that frames not handled belong to connections in the list |
| `Engine.KillRealLive` | src/conn.c:152-190 | killing a connection leaves no unhandled frame that points to it |
| `Engine.LiveFrames` | src/conn.c:152-303 | in no run is a frame left without its connection unless it is marked handled |
| `Engine.FlushSplits` | src/txqueue.c:352-413 | a flush sends everything a connection has waiting, in order, or nothing of it, by whether it is still connecting |
| `Engine.CleanedPending` | src/txqueue.c:424-434 | cleaning the queue for a dying connection leaves the frames of the others |
| `Engine.SendFifo` | src/txqueue.c:98-208 | enqueueing keeps the order of a connection's frames if and only if it does not overtake waiting ones |
| `Engine.StepFifo` | src/txqueue.c:98-413 | every step keeps order and numbering if and only if it is not such an overtaking send |
| `Engine.QueueModeFifo` | src/txqueue.c:98-413 | in every run in queue mode, for every live connection, handed and then waiting frames are the enqueued ones, in order, none twice, the i-th numbered i modulo 65536 |
| `Engine.CallbackOvertakes` | src/conn.c:1024-1030 | in immediate mode a send from the completion callback goes out in front of the frames queued before |
| `Engine.Delivered` | src/txqueue.c:210-297 | when the frames handed over go through the send loop, the other end reads exactly the first frames enqueued, numbered 1, 2, 3 and so on, however either side cuts up the stream |
| `ReceiveOrder.DispatchOrder` | src/rxhandlers.c:517-597 | what a dispatch hands out of a connection's frames and then what it keeps are those that were waiting, in order, if and only if it hands none out behind one that it keeps |
| `ReceiveOrder.DispatchAll` | src/rxhandlers.c:517-597 | a dispatch loses no frame and hands none out twice |
| `ReceiveOrder.StepLog` | src/rxqueue.c:347-509 | every step keeps the queue in order of receipt with no frame lost, and keeps the frames handed out in order if and only if it is not such a dispatch |
| `ReceiveOrder.NoFrameLost` | src/rxqueue.c:446-509 | over every run, each frame received on a live connection was handed out or is in the queue, once, and the queue is in order of receipt |
| `ReceiveOrder.ReceiveFifo` | src/rxqueue.c:446-509 | over every run without such a dispatch, the frames handed out of a live connection and then those in the queue are those received, in order |
| `ReceiveOrder.KeptIsOvertaken` | src/rxhandlers.c:528-585 | two frames of which the first is kept and the second handed out before it |
| `ReceiveOrder.ArrivalsQueue` | src/rxqueue.c:436-456 | frames read one after the other stand at the end of the queue in that order, with channel, number and payload |
| `ReceiveOrder.PeerHeard` | src/rxqueue.c:347-461 | what the peer gives to its send loop is handed out on this side in the same order, however either side cuts up the stream |
| `Runs.EnqueuedAreAsked` | src/txqueue.c:98-208 | over every run the frames enqueued are those asked for, one for one and in order, with the channel and payload asked for |
| `Runs.StaysClosed` | src/conn.c:282-330 | over every run a connection keeps its type, and one that is closed or gone stays so |
| `Runs.BrokenForGood` | src/rxqueue.c:347-445 | after a broken read nothing is ever received on the connection again |
| `Runs.FreshConnection` | src/conn.c:251-271 | a new connection reads frames exactly when it is open, made and no rendezvous |
| `Runs.ClosedHasNone` | src/conn.c:316-336 | a closed connection has no callbacks; its type and number stay |
| `Runs.NewestFirst` | src/conn.c:251-303 | over every run the connection list runs from the newest to the oldest |
| `Runs.LoggedOffIsEmpty` | src/conn.c:199-216 | logging off leaves no connection and no frame to send or to hand out |
| `Runs.PrivateStays` | src/rxhandlers.c:376-478 | over every run a lookup for one of the seven protected SNACs finds at most the default callback of family 1, and any other registration is accepted |
| `Sessions.Session.NewConn` | src/conn.c:251-271 | the new connection stands in front of the list with sequence number 0 |
| `Sessions.Session.SetEnqueue` | src/txqueue.c:159-174 | switches between queued and immediate sending and changes nothing else |
| `Sessions.Session.Enqueue` | src/txqueue.c:27-190 | refuses unsuitable framing; otherwise stamps the next sequence number and queues, or hands over at once in immediate mode when the connection is made |
| `Sessions.Session.FlushQueue` | src/txqueue.c:352-413 | marking and purging hand over what can be sent and leave exactly the frames of connections still connecting |
| `Sessions.PurgeMarked` | src/txqueue.c:397-413 | the purge after the sending loop leaves exactly the waiting frames |
| `Sessions.Session.CompleteConnect` | src/conn.c:979-1033 | the status change, the callback's sends and the flush, or the failure cases |
| `Sessions.CompletedIsRun` | src/conn.c:979-1033 | completing a connection is a run of the engine's steps, so what every run keeps holds behind it |
| `Sessions.Session.CleanTx` | src/txqueue.c:424-434 | all frames of the connection are marked |
| `Sessions.Session.CleanRx` | src/rxqueue.c:500-509 | all unhandled frames of the connection are marked |
| `Sessions.Session.ConnKill` | src/conn.c:282-303 | unlinks, marks the frames and frees; nothing for a connection that is not in the list |
| `Sessions.Session.ConnRst` | src/conn.c:199-216 | every connection is killed and the list is empty |
| `Sessions.Session.GetCommand` | src/rxqueue.c:347-461 | completes a connecting connection; otherwise appends the frame received to the queue, or closes the connection; -1 exactly for a closed connection, a failed completion or a broken read |
| `Sessions.Session.RxDispatch` | src/rxhandlers.c:517-597 | when it returns, the queue holds exactly the frames that stay, the others are logged as handed out in order, and the invariant holds |
| `Sessions.Session.ConnAddHandler` | src/rxhandlers.c:401-435 | appends the callback or refuses the protected SNACs |

## Left out

- Sockets, `select`, DNS, proxies and `fcntl`: foreign calls; `send` and `recv` appear as scripts of answers.
- Allocation failures, memory ownership and the debug output.
- Connections are named by number, so an address that is used again after a free is not modelled; the cloning of connections (src/conn.c:562-591) is left out with it.
- Frames without a connection (src/txqueue.c:101-104): aim_tx_new never makes one.
- Sessions.Session.GetCommand: takes the frame that Flap.GetCommand reads from the socket as an argument, and leaves out the reading of rendezvous connections.
- Sessions.Session.FlushQueue: a frame handed over is recorded as such; sending the recorded frames is Flap.SendQueue, and Engine.Delivered is about both together.
- Sessions.Session.SetEnqueue: a queueing function of the client's own (AIM_TX_USER) is not modelled.
- Descriptors 0 to 2, which aim_get_command ignores: a connection is open or closed.
- Dispatch.HandleFrame: callbacks are arbitrary return values and stream positions and do not change the queues; the arguments they get (TLV texts, error codes) are left out.
- Sessions.Session.CompleteConnect: the callback enqueues frames and does nothing else.
- The OFT half of the transmit queue beyond its framing check: its frames are queued and handed over like the others, but their bytes are not modelled.
- The forced latency between frames (src/txqueue.c:368-377).
- UserInfos.PutUserInfo: the ICQ fields are not written, because ICQ_OSCAR_SUPPORT is not defined in the build modelled.
- UserInfos.ExtractUserInfo: a name longer than 32 bytes overruns a C array; the model keeps the bytes.
- 32-bit fields and flag masks are modelled with 32 bits although fu32_t may be wider; flag masks are sets of bits.
- Text with an embedded terminator: a string is its bytes in front of the first one.
- The little-endian get and put variants, aim_addtlvtochain8, the fixed-type TLV getters and the aim_puttlv macros: same shape as what is modelled.
- SNAC senders and parsers of the other families, the XOR password roasting, icon checksums and user-info accessors: they only reuse the codec.
- toupper is that of the C locale.
