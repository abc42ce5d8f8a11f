# A verified model of the GameSpy emulator

The emulator answers the protocols that games of the GameSpy era speak: the encrypted server browser, the
master server where game servers announce themselves, and the login server with its player table. This
project models the parts of it that carry state, arithmetic or a wire format, and proves what they promise.

| module | what it models |
|---|---|
| `Sapphire`, `Decks`, `Streams` | the stateful stream cipher of the browser connection, its key schedule, and streams in general |
| `PacketReader` | the fixed buffer that reassembles packets from reads of any size |
| `ListRequest`, `ListResponse` | the server list request, and the header, records and terminator of the answer |
| `BrowserClient` | a connection: preamble, key mixing, one cipher through all sends; and the client at the other end |
| `Md5` | the digest object with its 16-word buffer |
| `Qr` | heartbeats of game servers: a map and two tables over NUL-terminated text |
| `Challenge`, `Base64`, `Passwords` | the keyed answer to a challenge, base-64, the reversible password encoding |
| `KeyValues`, `Search`, `Tokens` | looking up keys in backslash-separated packets |
| `Bf2Query` | the repair of filters before they go to the database |
| `Master` | the master server as a system of steps over two maps and the tables of all games |
| `Players`, `Login` | the player table and any number of login sessions on it |
| `MasterRuns`, `LoginRuns` | requests as clients print them, and runs from the start that reach what must not be taken for impossible |
| `Md5Answers`, `CipherAnswers`, `LoginAnswers`, `WireAnswers` | known answers: the digest as the RFC's reference implementation and its test suite, both ciphers from states of which every step is known, and the bytes and texts that are sent |
| `Bytes`, `Parsing` | bytes, big-endian and decimal numbers, exclusive or, results of parsers |

Objects whose methods change fields are classes here, and loops that work in place are methods over arrays or
local sequences; each is proved equal to a function of its inputs or of its old state. What the system promises
is then proved about these functions: round trips, what every step keeps, and safety over whole runs.
What such laws leave open, a constant, an order or a place in a format, is fixed by known answers.

Bytes are the integers 0 to 255 with every wrap-around written out; the digest uses machine words. Texts are
sequences of bytes. Times are integers that count nanoseconds. Randomness, the clock, what a datagram contains,
how the network cuts a stream and whether a table accepts a row are parameters, and every statement holds for
all their values.

Where a promise does not hold for the code, the code is kept and the exact condition is proved; that the
condition can fail is shown by a concrete input or a run from the start:

- A request of 256 empty field names is accepted and its count byte wraps to zero; header and list are read back
  exactly below 256 fields (`ListRequest.FieldCountWraps`, `ListResponse.HeaderDecodes`).
- A record of a server without data carries values but no keys flag; a list is read back exactly when it holds no
  such server (`ListResponse.BareRecordMisreads`, `ListResponse.ListDecodes`).
- A password whose last byte equals its keystream byte loses it (`Passwords.LastByteLost`,
  `Passwords.PassDecodeEncode`).
- An empty key ends the map of a heartbeat, and an empty cell shifts all later cells of a table; a heartbeat is read
  back exactly when it has neither (`Qr.EmptyKeyEndsMap`, `Qr.EmptyCellShifts`, `Qr.ParsePrintedHeartbeat`).
- A host name that contains "gametype" gets " and " inserted (`Bf2Query.RewrittenReads`, `Bf2Query.HostnameCanSplit`).
- A validated server that announces another game is listed there too, and that row is never removed with it
  (`Master.ConsistentRun`, `MasterRuns.RenamesReachable`, `Master.RenamedRowOutlives`).
- A right answer whose row the table refuses leaves the endpoint in both maps (`MasterRuns.LosesReachable`).
- Heartbeats do not keep a validated server alive, only keepalives do, and these only while it does not wait as
  well (`Master.StaysExactly`, `MasterRuns.ChattyTimesOut`,
  `MasterRuns.RefusedTimesOut`).
- A value that equals the name of a key is taken for that key (`KeyValues.ValueIsTokenValue`): players named
  "email" and "proof" misread their own replies (`LoginRuns.MisreadEmailReachable`, `LoginRuns.MisreadProofReachable`),
  and a registration or login with such a value is read as another one (`LoginRuns.NewUserReads`,
  `LoginRuns.LoginReads`).
- Two sessions of one player do not see each other's change of country (`Login.CountryMayBeStale`,
  `LoginRuns.StaleCountryReachable`).

The comment in `emulator/master.cpp:119` asks for an even-sized challenge so that its base-64 form needs no
padding; what the code needs, and what is proved, is a multiple of three.

`dafny verify dfyconfig.toml` checks everything.

## Model

| member | source | states |
|---|---|---|
| `BrowserClient.ClientReadsList` | emulator/ms.client.cpp:93-204 | End to end, for every listing request with names free of NUL, every server list that converts and holds no NUL, every non-empty secret key, challenge and random key: a client that reads the clear preamble, repeats the key mixing, decrypts everything behind it as one stream and decodes it gets the backend options, the header fields and exactly the list of servers, in order, with nothing behind the terminator, if and only if there are fewer than 256 fields and every server has data or no field was asked for |
| `BrowserClient.AcceptedReadsList` | emulator/ms.client.cpp:170-204 | The same from the bytes of the request on: an accepted request has an eight-byte challenge and names free of NUL, so what is sent for it is read back under the same condition |
| `BrowserClient.PreambleReads` | emulator/ms.client.cpp:101-112 | The clear preamble is self-delimiting: both masked lengths, the backend options, the crypt key and the server challenge are read back, whatever follows |
| `BrowserClient.PayloadReads` | emulator/ms.client.cpp:188-204 | Header, records and terminator, concatenated, decode in turn, each part stopping where the next begins, if and only if there are fewer than 256 fields and every server has data or no field was asked for |
| `BrowserClient.Client.StartEncryption` | emulator/ms.client.cpp:93-124 | Sends the preamble once per connection and leaves a cipher in the state that the mixed key sets up; a second call changes nothing |
| `BrowserClient.MixKey` | emulator/ms.client.cpp:114-119 | The in-place mixing of the challenge equals the fold over the bytes of the server challenge, with the aliasing of its two positions |
| `BrowserClient.Client.Send` | emulator/ms.client.h:47-52 | Encrypts in place with the one cipher of the connection: what has been sent so far is the encryption of the concatenation of all buffers |
| `BrowserClient.Client.HandleServerListRequest` | emulator/ms.client.cpp:170-204 | After invalid requests and unknown games nothing is sent and the socket is closed; otherwise the bytes sent are the preamble and one encryption of the header alone, or of header, records and terminator, or, when a value does not convert, of header and the records before that server; at most 500 servers, and no more than the client asked for; on a fresh connection a client decodes what was sent to the expected view under the exact condition |
| `BrowserClient.Limit` | emulator/ms.client.cpp:198 | Without a limit in the request 500 servers are asked for; with one, at most 500 and at most that many, and one of the two |
| `WireAnswers.WireAnswer` | emulator/ms.client.cpp:93-192 | One whole response byte for byte: for the key of Battlefield 2, one client and one server challenge, the preamble and the six encrypted bytes of a header without a list |
| `WireAnswers.PreambleAnswer` | emulator/ms.client.cpp:101-112 | One preamble byte for byte, with both masked lengths |
| `WireAnswers.SessionKeyAnswer` | emulator/ms.client.cpp:114-119 | The session key of that connection after all twenty-five steps of the mixing |
| `BrowserClient.Client.SendList` | emulator/ms.client.cpp:199-204 | One record for each server in order, then the terminator; a server with a value that does not convert ends the sending after the records before it, and those are what was sent |
| `Sapphire.DecryptByteInverts` | emulator/sapphire.cpp:140-198 | For one byte, from equal states, decryption returns the byte and reaches the same state, although the two functions feed back different variables |
| `Sapphire.DecryptEncrypt` | emulator/sapphire.cpp:140-198 | For every state and message, decrypting the encryption returns the message and leaves both ciphers in equal states |
| `Sapphire.EncryptConcat` | emulator/sapphire.h:46-54 | Encrypting buffer by buffer is encrypting the concatenation |
| `Sapphire.EncryptKeepsShuffled` | emulator/sapphire.cpp:152-158 | The four moves keep a permutation of the 256 cards, also when their positions coincide |
| `Sapphire.StreamKeepsShuffled` | emulator/sapphire.cpp:140-198 | The deck is a permutation after any message in either direction |
| `Sapphire.KeyedShuffled` | emulator/sapphire.cpp:46-120 | Every key up to 255 bytes, and no key, sets up a permutation |
| `Sapphire.DealKeepsShuffled` | emulator/sapphire.cpp:78-84 | Every step of the key-dependent deal keeps a permutation, whatever cards are drawn |
| `Sapphire.MovesAreSwaps` | emulator/sapphire.cpp:153-157 | Moving four cards through one hole equals three transpositions, for all coincidences of the four positions |
| `Sapphire.MaskFits` | emulator/sapphire.cpp:27-30 | The mask built by doubling is always a run of low one bits |
| `Sapphire.MaskedIsMachineAnd` | emulator/sapphire.cpp:39 | For each of these masks the remainder used in the model is the machine's bitwise and |
| `Sapphire.KeyRand` | emulator/sapphire.cpp:16-44 | The drawn value is at most the limit, the key position stays inside the key, and there are at most 12 draws |
| `Sapphire.Cipher.KeyRandom` | emulator/sapphire.cpp:16-44 | The retry loop returns what the draw specification says: value, running sum, key position and number of draws |
| `Sapphire.Cipher.Initialize` | emulator/sapphire.cpp:46-99 | Leaves the deck and all five indices in the state set up by the key, and a permutation in the deck |
| `Sapphire.Cipher.HashInit` | emulator/sapphire.cpp:101-120 | Leaves the cards in inverse order and the five fixed index values, the state of the empty key |
| `Sapphire.Cipher.DealCards` | emulator/sapphire.cpp:73-84 | The in-place deal from the last card down equals the recursive deal |
| `Sapphire.Cipher.Shuffle` | emulator/sapphire.cpp:150-158 | The five in-place assignments, with their aliasing, advance the deck by its three transpositions |
| `Sapphire.Cipher.Encrypt` | emulator/sapphire.cpp:140-171 | One byte and the whole next state are those of the encryption step |
| `Sapphire.Cipher.Decrypt` | emulator/sapphire.cpp:173-198 | One byte and the whole next state are those of the decryption step |
| `Sapphire.Cipher.EncryptRange` | emulator/sapphire.h:46-54 | Overwrites every element of the buffer; buffer and state equal the run of the encryption step over the old contents |
| `CipherAnswers.HashAnswers` | emulator/sapphire.cpp:101-171 | Known answers from the fixed state: three bytes of the stream with the whole state after them, and all five indices after the message 0, 1 |
| `CipherAnswers.DescendingKeyed` | emulator/sapphire.cpp:46-99 | For every length from 1 to 255, the key whose bytes take one from the running sum at every draw leaves the cards in order and the indices 1, 3, 5, 7 and 1: all 256 positions are dealt, and the key starts over as the code has it |
| `CipherAnswers.DescendingAnswer` | emulator/sapphire.cpp:46-171 | With any such key, an address and a port are encrypted to these six bytes |
| `CipherAnswers.DealAnswer` | emulator/sapphire.cpp:73-84 | The key of Battlefield 2 deals the last eight positions of an ordered deck as computed by hand, with a draw that is refused and the key used up |
| `CipherAnswers.TwelfthTry` | emulator/sapphire.cpp:26-43 | A draw that is refused eleven times takes the remainder at the twelfth try |
| `Decks.ShuffledIsBijection` | emulator/sapphire.h:16 | In a permuted deck no card is missing and none occurs twice |
| `Streams.RunConcat` | emulator/sapphire.h:46-54 | For any stateful step, two inputs one after the other with the state threaded through are one input |
| `Streams.RunInverse` | emulator/sapphire.cpp:140-198 | A step that another step undoes state for state is undone over whole messages |
| `Bytes.XorIsMachineXor` | emulator/sapphire.cpp:164-167 | The arithmetic exclusive or of the model is the machine's on all pairs of bytes |
| `PacketReader.SplitExtends` | emulator/ms.client.cpp:20-70 | Later bytes never change what was yielded before, and an unread tail is read as if it came first |
| `PacketReader.SplitFrames` | emulator/ms.client.cpp:30-63 | Any list of packets that fit, framed one after the other, is split into exactly these packets, whatever follows |
| `PacketReader.TailFits` | emulator/ms.client.cpp:65-68 | What stays in the buffer after compaction is an incomplete packet shorter than the buffer, so the next read has room |
| `PacketReader.Reader.Receive` | emulator/ms.client.cpp:26-68 | One read of any size, the packets it completes and the compaction: the result is the split of the unread bytes followed by the new ones, and the rest is moved to the front |
| `PacketReader.Reader.Drain` | emulator/ms.client.cpp:29-63 | The inner loop yields the packets of the split and stops at malformed, oversized and unknown ones; it never reads outside what is available |
| `PacketReader.ReadStream` | emulator/ms.client.cpp:20-70 | However the network cuts a stream into reads, the packets and the verdict are those of the simple recursive splitter on the whole stream |
| `WireAnswers.StreamAnswer` | emulator/ms.client.cpp:29-63 | A stream of two packets and the beginning of a third one, byte for byte |
| `WireAnswers.StreamRefusals` | emulator/ms.client.cpp:34-52 | A stream is refused at once exactly for a length below 3 or above 4096, or a complete packet of a type above 5 |
| `ListRequest.ParsePrinted` | emulator/sb_request.cpp:100-146 | A printed request of at least 26 bytes, followed by anything, parses to itself if and only if its field list is not a single empty name |
| `ListRequest.ParsedPrints` | emulator/sb_request.cpp:100-146 | Conversely, whatever packet is accepted begins with the print of the request it was read as |
| `ListRequest.AcceptedOptions` | emulator/sb_request.cpp:50-97 | Options of an accepted request are at most 128, each optional number is there exactly when its bit is set, and never both |
| `ListRequest.AcceptedFieldCount` | emulator/sb_request.cpp:61-75 | An accepted request has at most 256 fields, at most 128 if no name is empty; its count byte is right exactly below 256 |
| `ListRequest.FieldCountWraps` | emulator/sb_request.cpp:168 | A request of 256 empty names is accepted and its count byte is zero |
| `WireAnswers.RequestAnswers` | emulator/sb_request.cpp:100-146 | Two requests byte for byte, one with a limit and one with an alternate address, and what they are read as |
| `WireAnswers.RequestRefusals` | emulator/sb_request.cpp:108-121 | Refused are packets of fewer than 26 bytes, other protocol versions than 1, and other encoding versions than 3 |
| `WireAnswers.PartRefusals` | emulator/sb_request.cpp:12-75 | A filter and a field list have at most 256 characters, a field list begins with a backslash, and options are at most 128 |
| `WireAnswers.OptionBits` | emulator/sb_request.h:35-45 | The bits of the options, against the machine's bitwise and, for every option byte: no list, alternate address, limit, and which options let a list follow |
| `ListRequest.FieldNamesJoin` | emulator/sb_request.cpp:67-72 | Splitting undoes joining for every list of names except one empty name, which reads as no name |
| `ListRequest.AcceptedFieldsNulFree` | emulator/sb_request.cpp:61-75 | The field names of an accepted request are free of NUL |
| `ListRequest.ParseRequest` | emulator/sb_request.cpp:100-146 | The cursor-driven parser equals the recursive specification on every packet, errors included |
| `ListRequest.PacketIterator.ExtractString` | emulator/sb_request.cpp:17-29 | Text up to NUL with its length limit; the cursor moves behind the NUL, and does not move on an error |
| `ListRequest.PacketIterator.ExtractUInt32` | emulator/sb_request.cpp:42-48 | Four bytes, most significant first, or insufficient length |
| `ListRequest.PacketIterator.ExtractOptions` | emulator/sb_request.cpp:50-59 | Zero or 1 to 128; everything above is refused |
| `ListRequest.PacketIterator.ExtractFieldList` | emulator/sb_request.cpp:61-75 | At most 256 characters, a leading backslash, the names between backslashes |
| `ListRequest.PacketIterator.ExtractWhen` | emulator/sb_request.cpp:77-97 | An optional number is read exactly when its option bit is set |
| `Tokens.PiecesJoin` | emulator/sb_request.cpp:67-72 | Splitting at backslashes undoes joining |
| `Tokens.JoinPieces` | emulator/sb_request.cpp:67-72 | Joining undoes splitting, for every text |
| `ListResponse.RecordDecodes` | emulator/sb_request.cpp:205-323 | A decoder driven only by the flag byte and the field types recovers addresses, ports, every value and the rules from a record followed by anything, if and only if the server has data or no field was asked for |
| `ListResponse.UnfilledRecordMisreads` | emulator/sb_request.cpp:246-251 | Without data the keys flag is clear although values are sent: whatever a decoder makes of the record, it has no values and is not what the server is |
| `ListResponse.BareRecordMisreads` | emulator/sb_request.cpp:246-251 | A server known by its address alone, and any one field: the record is sent, the decoder reads the address and no value, and the bytes of the value are left in front of the next record |
| `ListResponse.RecordIsNoTerminator` | emulator/ms.client.cpp:204 | The flag byte of a record is never zero, so no record begins like the terminator |
| `ListResponse.FlagBits` | emulator/sb_request.cpp:192-203 | Each of the eight bits of the flag byte is set exactly by its own condition |
| `WireAnswers.FlagAnswers` | emulator/sb_request.cpp:189-318 | The flag byte of every server, bit by bit, against the machine's bitwise and |
| `WireAnswers.RecordAnswer` | emulator/sb_request.cpp:205-323 | A record with all its parts byte for byte: flags, addresses, ports, the three kinds of values, rules |
| `WireAnswers.HeaderAnswers` | emulator/sb_request.cpp:148-187 | Headers byte for byte: with three fields of the three types, without a list, and of a game without multiplayer; and the terminator |
| `WireAnswers.ByteOrder` | emulator/sb_request.cpp:47 | Numbers are sent and read with the most significant byte first |
| `ListResponse.EncodedValuesAre` | emulator/sb_request.cpp:250-314 | Values are sent exactly when all numeric ones are numbers in range; then their bytes are those of their transported forms, in field order |
| `ListResponse.PrepareServer` | emulator/sb_request.cpp:205-323 | The growing buffer, whose front byte collects the flags, ends as the specified record, or none where the encoder throws |
| `ListResponse.PrepareAddresses` | emulator/sb_request.cpp:208-244 | All addresses and ports with their presence bits, in order |
| `ListResponse.AppendValue` | emulator/sb_request.cpp:255-313 | One value as string, byte or short; an empty text is zero, text that is no number in range makes it throw |
| `ListResponse.AppendValues` | emulator/sb_request.cpp:250-314 | One value for every requested field, missing ones empty |
| `ListResponse.AppendRules` | emulator/sb_request.cpp:316-320 | Rules are appended with their NUL and their flag exactly when there are any |
| `ListResponse.HeaderDecodes` | emulator/sb_request.cpp:148-188 | A client reads back address, query port and every field with its type, and stops behind the header, if and only if there are fewer than 256 fields; otherwise any header it reads is another one |
| `ListResponse.TableDecodes` | emulator/sb_request.cpp:168-185 | The field table is read back, whatever follows, if and only if there are fewer than 256 fields; otherwise any table read is another one |
| `ListResponse.GetResponseHeaderBytes` | emulator/sb_request.cpp:148-188 | The header bytes for every port and option, including the message of games without multiplayer and the early return |
| `ListResponse.ListDecodes` | emulator/ms.client.cpp:199-204 | A list of records and the terminator decode to exactly the servers, in order, with the decoder stopping behind the terminator, if and only if every server has data or no field was asked for |
| `ListResponse.ListBytesAre` | emulator/ms.client.cpp:199-204 | The list is all records and the terminator when every server converts, and otherwise there is none |
| `ListResponse.ConvertingIs` | emulator/sb_request.cpp:255-313 | How many servers are sent: all before the first one with a value that does not convert |
| `Md5.Digest.Update` | emulator/md5.h:101-132 | For every length, chunk loop, tail and one or two final blocks equal the fold of the compression function over the message padded as in sections 3.1 and 3.2 of RFC 1321, bit length modulo 2^64 |
| `Md5.Digest.Finish` | emulator/md5.h:114-131 | The last one or two blocks, on both sides of 56 left-over octets, equal the fold over the tail with its padding |
| `Md5.Digest.BytesToMArray` | emulator/md5.h:58-68 | Fills the array up to the given word with the words of the block, inside its 16 words |
| `Md5.Digest.TrueBitToMArray` | emulator/md5.h:70-94 | In each of the four cases the word written is that of the last octets and the one bit |
| `Md5.Digest.ZerosToMArray` | emulator/md5.cpp:39-44 | Fills with zero words up to the given one, inside the array |
| `Md5.Digest.OriginalLengthBitsToMArray` | emulator/md5.cpp:46-50 | The two last words are the bit length, low word first |
| `Md5.Digest.HashChunk` | emulator/md5.cpp:52-91 | 64 rotating rounds over four variables equal the 64 operations of section 3.4 of RFC 1321 on renamed registers |
| `Md5.ShiftedStep` | emulator/md5.cpp:62-85 | One round of the loop, which shifts its four variables, equals one operation of the standard, which writes one register |
| `Md5.MixIsAuxiliary` | emulator/md5.cpp:63-78 | The loop's form of the second auxiliary function is that of the standard |
| `Md5.WordIndex` | emulator/md5.cpp:65-77 | The word read in each round is the one the standard's start and stride give |
| `Md5.TailWords` | emulator/md5.h:70-94 | The words for the one bit behind no, one, two and three octets |
| `Md5.BlocksStep` | emulator/md5.h:107-112 | The fold takes one block of 64 octets at a time |
| `Md5.Digest.ToBytes` | emulator/md5.h:159-168 | Sixteen octets, four of each register, least significant first |
| `Md5.Digest.ToHex` | emulator/md5.h:170-179 | The hexadecimal digest is the hexadecimal text of the octets of the digest |
| `Md5.UInt32ToHex` | emulator/md5.h:38-47 | Low octet first but high nibble first within each octet |
| `Md5.HexOfDigest` | emulator/md5.h:159-179 | Printing the four registers one after the other is printing the sixteen octets |
| `Md5.Md5` | emulator/utils.cpp:119-124 | The digest of a text is 32 characters, those of the padded fold |
| `Md5Answers.CompressIs` | emulator/md5.cpp:3-91 | For every block and all registers, the table-driven loop computes the reference implementation of Appendix A.3 of RFC 1321, in which each of the 64 operations is written out with its word, rotation and constant |
| `Md5Answers.EmptyAnswer` | emulator/md5.h:102-175 | The digest of the empty message, from the test suite in Appendix A.5 of RFC 1321 |
| `Md5Answers.AbcAnswer` | emulator/md5.h:102-175 | The digest of abc, from the same test suite |
| `Md5Answers.EightyAnswer` | emulator/md5.h:102-175 | The digest of eighty digits, which take two blocks, from the same test suite |
| `Qr.ParsePrintedHeartbeat` | emulator/qr.cpp:133-165 | Printing a key/value map, a player table and a team table of texts free of NUL, with rows as wide as their headers, and parsing the bytes, whatever follows, returns the same map and tables if and only if no key and no cell is empty |
| `Qr.ParsePrintedMapAlone` | emulator/qr.cpp:153-161 | A map followed by anything that is no readable player table counts alone, and is read back if and only if no key is empty |
| `Qr.ParsePrintedMapOnly` | emulator/qr.cpp:153-161 | A map without tables parses to itself if and only if no key is empty |
| `Qr.TakePrintedMap` | emulator/qr.cpp:31-65 | A printed map is read back, and the cursor stops exactly at what follows, if and only if no key is empty; otherwise the map is never the printed one, wherever the cursor stops |
| `Qr.EmptyKeyEndsMap` | emulator/qr.cpp:48-52 | An empty key ends the map: the pairs before it are read, and the cursor stops in front of its value |
| `Qr.TakePrintedTable` | emulator/qr.cpp:74-130 | A printed table is read back, and the cursor stops exactly at what follows, if and only if no cell is empty; otherwise the table is never the printed one |
| `Qr.EmptyCellShifts` | emulator/qr.cpp:104-119 | One table with an empty cell: it is accepted, the next cell stands in its place, and the last cell is a text that was sent behind the table |
| `Qr.TakePrintedRows` | emulator/qr.cpp:90-121 | From any column of a row on, for any rows read before and any that follow: the cells left fill row after row if and only if none of them is empty |
| `Qr.NoEmptyKeyRead` | emulator/qr.cpp:48-58 | For arbitrary input, a map that is read never holds the empty key |
| `Qr.NoEmptyCellAccepted` | emulator/qr.cpp:104-116 | For arbitrary input, no cell of an accepted table is empty |
| `Qr.FirstKeyWins` | emulator/qr.cpp:57 | The parsed map holds every printed key with the value of its first occurrence |
| `Qr.TableShape` | emulator/qr.cpp:81-124 | For arbitrary input, an accepted table that announces rows has exactly that many, none empty or wider than the header, the last one full |
| `Qr.ClosedTableIsRectangular` | emulator/qr.cpp:104-111 | If an empty column closes the header before the first cell, every row has header width |
| `Qr.ColumnsShape` | emulator/qr.cpp:90-121 | What every column read keeps: no row is empty or wider than the header, no more rows than announced |
| `Qr.DataIterator.ParseMap` | emulator/qr.cpp:31-65 | The cursor loop equals the recursive parser, and leaves the cursor at the rest |
| `Qr.DataIterator.ParseTable` | emulator/qr.cpp:74-130 | The cursor loop with its row logic equals the recursive parser, and leaves the cursor at the rest |
| `Qr.DataIterator.ParseColumns` | emulator/qr.cpp:90-121 | Headers, empty columns and cells, with both breaks and every error, as the recursive parser has them |
| `Qr.ParseHeartbeatPacket` | emulator/qr.cpp:133-165 | Map, player table and team table share one cursor; the outcome is that of the three parsers in turn |
| `WireAnswers.TablesAnswer` | emulator/qr.cpp:133-165 | A heartbeat with a map and two tables byte for byte, and what it is read as |
| `Base64.DecodeEncode` | emulator/utils.cpp:39-53 | Decoding an encoded byte string loses exactly its trailing zero bytes |
| `Base64.RawEncode` | emulator/utils.cpp:39-53 | Before trimming, the decoder returns the bytes and one zero byte for every padding character |
| `Base64.EncodedText` | emulator/utils.cpp:39-44 | Encoded text uses the alphabet of section 4 of RFC 4648, and has padding exactly when the length is no multiple of three |
| `CipherAnswers.LetterAnswers` | emulator/utils.cpp:39-44 | The alphabet of RFC 4648: where its four runs begin and end, and that they are runs |
| `CipherAnswers.Base64Answers` | emulator/utils.cpp:39-44 | The seven test vectors of section 10 of RFC 4648 |
| `Passwords.PassEncodePlain` | emulator/utils.cpp:90-97 | An encoded password holds neither backslash nor NUL, so a packet can carry it |
| `Passwords.PassDecodeEncode` | emulator/utils.cpp:90-105 | Decoding an encoded password always gives a prefix of it, and all of it if and only if it is empty or its last byte differs from its keystream byte |
| `Passwords.LastByteLost` | emulator/utils.cpp:90-105 | The password that is the first keystream byte alone comes back empty |
| `CipherAnswers.KeyBytes` | emulator/utils.cpp:28-36 | The first eight bytes of the keystream |
| `CipherAnswers.PasswordAnswer` | emulator/utils.cpp:90-97 | One password and its encoding, in which all three disguised characters occur |
| `Passwords.GsPassEncInvolution` | emulator/utils.cpp:28-36 | The keystream undoes itself |
| `Passwords.UndisguiseDisguise` | emulator/utils.cpp:93-103 | The three substitutions are undone on every text without the substitutes |
| `Passwords.ApplyKeystream` | emulator/utils.cpp:28-36 | The loop masks byte i with the (i+1)-th draw of the generator modulo 255 |
| `Passwords.Replace` | emulator/utils.cpp:93-103 | In-place replacement of one character by another, and nothing else |
| `Passwords.PasswordEncode` | emulator/utils.cpp:90-97 | The in-place substitutions on the encoded text give the specified text |
| `Passwords.PasswordDecode` | emulator/utils.cpp:99-105 | The in-place substitutions back, then decoding, or none where the decoder throws |
| `Challenge.ProofLength` | emulator/master.cpp:127-140 | The challenge text has 21 characters if and only if the backend options are below 256; the stored proof then has 28 base-64 characters and no padding |
| `Challenge.HexLength` | emulator/master.cpp:128 | A number has at most w hexadecimal digits exactly when it is below 16^w, for every w |
| `Challenge.ScheduledShuffled` | emulator/utils.cpp:74-77 | The box is a permutation after every step of the key schedule |
| `Challenge.EncodedShuffled` | emulator/utils.cpp:80-85 | The box stays a permutation through any message |
| `Challenge.EncodeInPlace` | emulator/utils.cpp:64-88 | Both loops work in place on box and message: the result is the base-64 text of the keystreamed message, and both indices stay below 256 |
| `Challenge.Step` | emulator/utils.cpp:81-84 | One character: both index updates, the swap and the mask |
| `Challenge.ScheduleKey` | emulator/utils.cpp:69-77 | The box after 256 swaps is the scheduled one, and a permutation |
| `CipherAnswers.FirstCharacter` | emulator/utils.cpp:79-85 | From ordered cards, every first character c is encoded to c xor 2c + 2: the index moves by the clear character |
| `CipherAnswers.SteadyScheduled` | emulator/utils.cpp:69-77 | All 256 steps of the key schedule, for the keys that swap each card but the last with itself, whatever their last byte |
| `CipherAnswers.RepeatedKey` | emulator/utils.cpp:75 | A key repeated is the same key |
| `CipherAnswers.ScheduleAnswer` | emulator/utils.cpp:74-77 | Eight steps of the schedule with the key of Battlefield 2, of six characters |
| `CipherAnswers.EncodeAnswer` | emulator/utils.cpp:64-88 | One proof: the base-64 text for one key and message, through schedule and encoding |
| `CipherAnswers.HexDigitAnswers` | emulator/master.cpp:128 | The sixteen upper-case digits |
| `CipherAnswers.ResponseAnswer` | emulator/master.cpp:127-128 | One text to encode: prefix, backend, address and port in their columns |
| `KeyValues.ValueIsTokenValue` | emulator/utils.cpp:126-144 | On packets without NUL and names without backslash, looking a key up is token search: the first token equal to the name with a backslash on both sides counts, even where it stands as a value, and the next token is returned exactly when it ends with a backslash too |
| `KeyValues.Lookup` | emulator/utils.cpp:126-144 | The search and the scanning loop return the specified value, or none where the packet ends first |
| `Parsing.DecimalRoundTrip` | emulator/utils.cpp:156-170 | A printed number parses back exactly when it is in the range of the type |
| `Parsing.CutAt` | emulator/qr.cpp:41-46 | A scan that stops at the first NUL finds where the text ends, or that it does not end |
| `Search.FindText` | emulator/utils.cpp:130 | The first position, not before the given one, at which the text stands |
| `Search.FindAfter` | emulator/utils.cpp:130 | Skipping a prefix in which no occurrence starts only shifts what is found |
| `Bf2Query.RewrittenReads` | emulator/bf2.cpp:174-198 | Through both repairs, an SQL literal reader started at the opening quote reads back percent, the host name asked for, percent, and stops at the intended closing quote, if and only if no quote follows that one and the host name does not itself hold the first "gametype" of the query behind a character other than a space |
| `Bf2Query.HostnameCanSplit` | emulator/bf2.cpp:176-180 | Such a host name exists: " and " is then inserted into it |
| `WireAnswers.QueryAnswer` | emulator/bf2.cpp:176-198 | One query with both defects and what it is repaired to |
| `Bf2Query.EscapedReads` | emulator/bf2.cpp:182-198 | What stands before the host name is unchanged, and the escaped literal reads back exactly when no quote follows the closing one |
| `Bf2Query.ReadDoubled` | emulator/bf2.cpp:189-195 | Doubling every quote is what a literal reader undoes, whatever follows |
| `Bf2Query.HostnameMoves` | emulator/bf2.cpp:176-186 | After " and " has been inserted, the host name found is the same one, moved, kept or with the insertion inside |
| `Bf2Query.GapOutsideKeys` | emulator/bf2.cpp:176-186 | The place of the insertion never lies inside the opening or the closing text of a host name |
| `Bf2Query.SeparatedOnce` | emulator/bf2.cpp:176-180 | A separated query needs no further separation: the first "gametype" then follows a space or starts the query |
| `Bf2Query.FindInserted` | emulator/bf2.cpp:176-186 | What is found before or behind the place of the insertion is found again, where it has moved to; no occurrence is created |
| `Bf2Query.DoubleQuotes` | emulator/bf2.cpp:189-195 | The loop that inserts while it moves its position and its end terminates, and yields prefix, doubled segment and suffix |
| `Bf2Query.Rewrite` | emulator/bf2.cpp:171-198 | Both repairs in order, each only under its conditions |
| `Master.ConsistentRun` | emulator/master.cpp:28-202 | In every run, in every state: no endpoint is in both maps and an endpoint is listed in game g exactly when it is validated with gamename g, if and only if no step so far is a stored heartbeat of a validated endpoint for another known game, or a right answer whose row the table refuses |
| `Master.ConsistentStep` | emulator/master.cpp:28-202 | One step from an agreeing state keeps the agreement exactly when it is neither of these two |
| `MasterRuns.RenamesReachable` | emulator/master.cpp:101-117 | In a run from the start, a server that was validated for one game and then announces another one is listed in both |
| `MasterRuns.LosesReachable` | emulator/master.cpp:173-198 | A right answer whose row is refused leaves the server in both maps and unlisted, in a run from the start |
| `Master.RenamedRowOutlives` | emulator/master.cpp:101-117 | After such a heartbeat the row in the other game outlives the validation |
| `Master.ListedSince` | emulator/master.cpp:80-202 | In every run, every row has been on its table since some step m; its server had then been validated, without a break, since step j, or became so at step m itself, and step j answered with exactly the proof made for the heartbeat i by which it last entered the waiting map: the proof belongs to the validation under which the row was listed, not to an earlier one |
| `Master.ValidatedSince` | emulator/master.cpp:168-175 | Every validated endpoint has been validated, without a break, since the step at which it gave that proof, so that the proof belongs to the present validation, and keeps the game it announced for it |
| `Master.WaitingSince` | emulator/master.cpp:118-151 | Every waiting endpoint has waited since some heartbeat, for that heartbeat's proof and game, whatever it sent since |
| `Master.ListedShowsLatest` | emulator/master.cpp:108-117 | While the agreement is unbroken and the table takes the rows of this server's own heartbeats, every row of the server shows the data of its latest heartbeat |
| `Master.WaitingShowsLatest` | emulator/master.cpp:147-151 | While the agreement is unbroken, a waiting entry holds the server data of the latest heartbeat |
| `Master.RightAnswerIsListed` | emulator/master.cpp:118-196 | The handshake completes: a server that still waits and encodes the challenge it was sent with the key of its game is validated and listed in that game, whatever else happened in between |
| `Master.AnswerArrives` | emulator/master.cpp:130-136 | The answer built from the sent challenge packet is received as exactly the encoded text |
| `WireAnswers.SignalAnswers` | emulator/master.cpp:219-241 | Datagrams byte for byte: a heartbeat, a keepalive, an answer and a query, each with what it means |
| `WireAnswers.NoSignal` | emulator/qr.cpp:8-25 | Short datagrams, other types, and data that do not end in NUL mean nothing |
| `Master.TimerRemoves` | emulator/master.cpp:28-53 | In every state, after a pass no entry older than 60 whole seconds is left in either map and all other entries and rows that are left are unchanged; where the listing agrees with the maps, exactly the rows of the removed validated endpoints are gone |
| `WireAnswers.TimeoutAnswer` | emulator/master.cpp:38-39 | An entry has timed out exactly when its last update is 61 seconds old, in nanoseconds |
| `Master.StaysExactly` | emulator/master.cpp:154-166 | From any state in which an endpoint is validated, through any further events, it is never removed if and only if every pass finds its last keepalive, or the time it was validated with, at most 60 whole seconds old; a keepalive that comes while the endpoint also waits does not count, as it refreshes the waiting entry alone |
| `Master.AllCount` | emulator/master.cpp:118-166 | An endpoint that does not wait while it is validated does not start to, so that all its keepalives count as long as it stays |
| `Master.KeptAlive` | emulator/master.cpp:154-166 | Keepalives that count and are at most 60 seconds apart, up to the end, keep an endpoint, from any state in which it is validated |
| `Master.HeartbeatsDoNotRefresh` | emulator/master.cpp:108-117 | From any state in which an endpoint is validated, however many heartbeats arrive: without a keepalive that counts the first late pass ends the validation |
| `MasterRuns.ChattyTimesOut` | emulator/master.cpp:108-117 | It happens in a run from the start that a validated server sends a heartbeat every half minute and is removed after 61 seconds |
| `MasterRuns.RefusedTimesOut` | emulator/master.cpp:154-198 | It happens in a run from the start that a server whose row was refused is validated and waits, sends a keepalive after half a minute, and is removed as validated after 61 seconds while it goes on waiting |
| `Master.BecomesValidated` | emulator/master.cpp:168-175 | An endpoint becomes validated exactly by the right answer while it waits, and keeps the time of its last refresh |
| `Master.StaysValidated` | emulator/master.cpp:154-166 | Only a keepalive changes a validated entry, only its time, and only the timer removes it |
| `Master.StartsWaiting` | emulator/master.cpp:118-144 | An endpoint starts to wait exactly by a heartbeat for a known game while it is unknown, with all five fields of its entry |
| `Master.KeepsWaiting` | emulator/master.cpp:147-159 | While it waits its proof, game and instance never change; its own heartbeats change values and time, its keepalives the time, and nothing else changes anything |
| `Master.StopsWaiting` | emulator/master.cpp:168-202 | It stops waiting exactly by an answer, unless a right one finds its row refused, or by a timeout |
| `Master.Lists` | emulator/master.cpp:108-117 | A row appears or changes only by a right answer or by a heartbeat of a validated endpoint |
| `Master.MasterServer.HandleHeartbeat` | emulator/master.cpp:80-152 | All branches on the two maps and the listing, and the challenge that is sent in reply |
| `Master.AskedForProof` | emulator/master.cpp:127-145 | The proof that is stored is the encoding, with the key of the game, of the very text that is sent |
| `Master.RepliesExactly` | emulator/master.cpp:55-202 | A challenge goes exactly to who starts to wait, a confirmation exactly to who becomes validated by an answer, and the status of a game changes nothing |
| `WireAnswers.ReplyAnswers` | emulator/master.cpp:68-182 | The bytes of every reply to a game server: challenge, confirmation, and the three states of a game |
| `Master.MasterServer.HandleAvailable` | emulator/master.cpp:55-78 | The eight bytes with the status of a known game, and nothing for an unknown one |
| `Master.MasterServer.HandleChallenge` | emulator/master.cpp:168-202 | Right and wrong answers, the reply, and what stays behind when the table throws |
| `Master.MasterServer.HandleKeepAlive` | emulator/master.cpp:154-166 | Refreshes the waiting entry, else the validated one, else nothing |
| `Master.MasterServer.Cleanup` | emulator/master.cpp:28-53 | Both passes, erasing while they iterate, equal the timer step in any order of iteration |
| `Master.MasterServer.Sweep` | emulator/master.cpp:36-50 | One pass over one map: what is kept and what is taken off the tables |
| `Master.MasterServer.Receive` | emulator/master.cpp:210-247 | Dispatch by packet type, with the new state and the reply; unreadable packets and other types change nothing, and an empty datagram ends the receive loop |
| `Master.MasterServer.AddOrUpdateServer` | emulator/game.cpp:148-236 | Inserts or replaces the row of ip and port, or refuses and leaves the table as it was |
| `Master.MasterServer.RemoveServers` | emulator/game.cpp:295-307 | Removes exactly the rows of the given servers from the table of one game |
| `Login.AlwaysAgreed` | emulator/gpcm.client.cpp:56-194 | In every interleaving of any number of sessions on one table, after every step: names are unique, numbers increase, and every session that holds a player holds the number, name, email and password of the row of that name |
| `Login.RowsNeverChange` | emulator/playerdb.sqlite.cpp:112-127 | A row, once created, keeps its number, name, email and password for ever |
| `Login.IdentityNeverChanges` | emulator/gpcm.client.cpp:56-194 | An authenticated session stays authenticated as the same player as long as it lasts, whatever any session does |
| `Login.AuthenticatedSince` | emulator/gpcm.client.cpp:56-160 | Nobody is authenticated who did not prove a password: an authenticated session has been authenticated, without a break, since it logged in as a player created at a still earlier step, with a response computed from the digest of the password given then and its own challenge |
| `Login.AuthenticatedOverConnection` | emulator/gpcm.client.cpp:45-160 | The challenge is that of the present connection: step o opened the connection that still lasts, its greeting is read as the challenge to which step l behind it gave the response that logged the session in, and it has been authenticated since |
| `Login.ConnectedSince` | emulator/gpcm.client.cpp:45-54 | Every session was opened by a connection that has lasted since, and keeps the challenge it was sent then |
| `Login.GreetingReads` | emulator/gpcm.client.cpp:45-54 | The challenge of every greeting is read back by a key lookup |
| `Login.GreetingLasts` | emulator/gpcm.client.cpp:45-91 | As long as a connection lasts, what its client read in the greeting is the challenge that its answers are held against |
| `Login.RightPasswordLogsIn` | emulator/gpcm.client.cpp:45-160 | Conversely, in every interleaving: whoever answers the challenge that it reads in the greeting of its connection, which still lasts, with a name that was registered with an encoded password of 3 to 30 bytes, whose last byte differs from its keystream byte, and with that password, is authenticated as that player |
| `LoginRuns.StoryEnds` | emulator/gpcm.client.cpp:45-160 | A whole run from the start: two connections, a registration, and two logins by right answers, after which both sessions are authenticated as one player |
| `LoginRuns.NewUserReads` | emulator/gpcm.client.cpp:125-132 | A printed registration is always accepted; what is read is the printed one with the exact replacements where a value is the name of a later key, hence itself if and only if no value is, or the word that follows happens to be that key's value |
| `LoginRuns.LoginReads` | emulator/gpcm.client.cpp:64-82 | A printed login is refused if and only if the name read from it is empty; otherwise what is read is the printed one with the exact replacements where a value is the name of a later key, hence itself under the condition stated |
| `Login.RowSince` | emulator/gpcm.client.cpp:116-151 | Every row was created by one new-user request, with the name, email and password digest of that packet |
| `Login.BecomesAuthenticated` | emulator/gpcm.client.cpp:56-110 | A session becomes authenticated exactly by a successful login request of its own, as the player found under that name |
| `Login.StaysAuthenticated` | emulator/gpcm.client.cpp:56-194 | No request of any session changes who an authenticated session is |
| `Login.RequestKeeps` | emulator/gpcm.client.cpp:56-194 | One request keeps names unique, keeps all rows but for a country, and keeps every session's player, its own and any other, in agreement with the table |
| `Login.CountryMayBeStale` | emulator/gpcm.client.cpp:180-194 | After one session has changed the country of a player, another session of the same player holds the row's country exactly when it held that country before |
| `LoginRuns.StaleCountryReachable` | emulator/gpcm.client.cpp:180-194 | It happens in a run from the start that the other session holds another country than the row |
| `Login.ProfileMatchesRow` | emulator/gpcm.client.cpp:163-178 | In every interleaving, a client that looks its profile up in the reply reads the number and the name of its row, and its email if and only if its name is not the word "email" or its email is the word that follows the name |
| `LoginRuns.MisreadEmailReachable` | emulator/gpcm.client.cpp:255-262 | It happens in a run from the start, with a player named "email", that its client reads another email |
| `Login.LoginProof` | emulator/gpcm.client.cpp:103-107 | After a successful login the client reads a proof made from the password and both challenges in the opposite order, if and only if neither its name nor the ticket is the word "proof" itself |
| `LoginRuns.MisreadProofReachable` | emulator/gpcm.client.cpp:103-107 | It happens in a run from the start, with a player named "proof", that its client does not read that proof |
| `Login.LoginVerdict` | emulator/gpcm.client.cpp:64-95 | The code a client reads from a refused login says which of the three reasons it was: no valid query, no row of that name, or the wrong response |
| `Login.NewUserVerdict` | emulator/gpcm.client.cpp:134-137 | A name that is in use is refused with its own code, whatever the password |
| `LoginRuns.TakenNameReachable` | emulator/gpcm.client.cpp:134-137 | It happens in a run from the start that a second connection is refused the name that the first one registered |
| `Login.ErrorReads` | emulator/gpcm.client.cpp:244-253 | The code of every error reply is read back by a key lookup |
| `Login.ReplyValue` | emulator/utils.cpp:126-144 | In a reply printed from tokens without backslash and NUL, looking a key up finds its token |
| `Login.LoginEffect` | emulator/gpcm.client.cpp:56-114 | A login changes phase and player together, only on the right response, and never the table |
| `Login.NewUserEffect` | emulator/gpcm.client.cpp:116-160 | A new user is created only for an unused name with a decoded password of 3 to 30 characters, and the session takes the new player but stays unauthenticated |
| `Login.UpdateEffect` | emulator/gpcm.client.cpp:180-194 | A profile update needs an authenticated session and a country code, and changes only the country of session and row |
| `Login.LoginClient.SendChallenge` | emulator/gpcm.client.cpp:45-54 | Stores challenge and ticket and opens the authentication phase; the challenge is read back from the reply |
| `Login.LoginClient.HandleLogin` | emulator/gpcm.client.cpp:56-114 | Every branch with its reply: wrong phase, invalid query, unknown name, wrong response, success with its proof |
| `Login.LoginClient.HandleNewUser` | emulator/gpcm.client.cpp:116-160 | Every branch with its reply, including the password that does not decode |
| `Login.LoginClient.Register` | emulator/gpcm.client.cpp:139-151 | Passwords of fewer than 3 or more than 30 bytes are refused; otherwise row, session and reply carry the new number |
| `Login.LoginClient.HandleGetProfile` | emulator/gpcm.client.cpp:163-178 | The profile of the session's own player, or an error, without any change |
| `Login.LoginClient.HandleUpdateProfile` | emulator/gpcm.client.cpp:180-194 | The upper-cased country in session and table, or an error or nothing |
| `Login.LoginClient.Process` | emulator/gpcm.client.cpp:208-237 | Dispatch by the beginning of the packet; logout and exceptions end the session |
| `Login.LookUp` | emulator/utils.cpp:146-154 | The value of a key is text without backslash and NUL |
| `LoginAnswers.GreetingText` | emulator/gpcm.client.cpp:50 | The greeting, as a text of keys and values in order, for every session |
| `LoginAnswers.LoginText` | emulator/gpcm.client.cpp:104-106 | The reply to a login, likewise, for every player, session key, ticket and proof |
| `LoginAnswers.CreatedText` | emulator/gpcm.client.cpp:148 | The reply to a registration, likewise |
| `LoginAnswers.ProfileText` | emulator/gpcm.client.cpp:255-262 | The profile, likewise, with its sixteen keys and the birthday of all players |
| `LoginAnswers.ErrorText` | emulator/gpcm.client.cpp:244-253 | An error, likewise, fatal or not |
| `LoginAnswers.LoginReplies` | emulator/gpcm.client.cpp:56-107 | Which text answers a login: every refusal with its code, message and request number, and on success the reply for that player with the CRC of its name and the proof |
| `LoginAnswers.NewUserReplies` | emulator/gpcm.client.cpp:116-150 | Which text answers a registration, in all six cases |
| `LoginAnswers.ProfileReplies` | emulator/gpcm.client.cpp:163-194 | Which text refuses a request for or a change of a profile |
| `LoginAnswers.Dispatch` | emulator/gpcm.client.cpp:221-234 | Who handles a packet by how it begins, and the error for all others |
| `LoginAnswers.NameAnswers` | emulator/gpcm.client.cpp:64-77 | Two logins: the name under user counts where there is none under uniquenick, and only there |
| `LoginAnswers.ChallengeAnswer` | emulator/utils.cpp:107-117 | The text that is digested for one name, password and pair of challenges |
| `LoginAnswers.Md5TextAnswer` | emulator/utils.cpp:119-124 | The digest of one text in lower-case hexadecimal digits |
| `LoginAnswers.CrcAnswer` | emulator/gpcm.client.cpp:99-101 | The check value of CRC-16/ARC |
| `LoginAnswers.UpperAnswer` | emulator/gpcm.client.cpp:190 | Which characters of a country are raised |
| `LoginAnswers.NumberAnswer` | emulator/utils.cpp:156-170 | A request number is any decimal number below two to the power of 32 |
| `LoginAnswers.NewPlayerAnswer` | emulator/gpcm.client.cpp:145 | A new player has the country ?? and the digest of its password |
| `LoginAnswers.FirstPlayers` | emulator/playerdb.sqlite.cpp:19-34 | The first two players of a table get the numbers 2900001 and 2900002 |
| `Players.InsertKeeps` | emulator/playerdb.sqlite.cpp:112-120 | A new name gets a row with a new number; every other player keeps its row |
| `Players.UpdateKeeps` | emulator/playerdb.sqlite.cpp:122-127 | An update by a player that agrees with its row changes nothing but that row's country |
| `Players.PlayerTable.CreatePlayer` | emulator/playerdb.sqlite.cpp:112-120 | Appends a row with the next number, or refuses exactly when a row of that name exists |
| `Players.PlayerTable.UpdatePlayer` | emulator/playerdb.sqlite.cpp:122-127 | Every row of that name gets password, email and country and keeps its number; every other row stays as it is, and no row comes or goes |
| `Players.PlayerTable.HasPlayer` | emulator/playerdb.sqlite.cpp:58-64 | Whether some row has that name |
| `Players.PlayerTable.GetPlayerByName` | emulator/playerdb.sqlite.cpp:66-83 | The first row of that name with all its fields, or none when no row has it |

## Left out

- Sockets, coroutines, timers and accept loops: reads are arbitrary chunks, and every handler is one atomic step. The interleaving of a timer pass inside a handler that waits for a send is not modelled.
- An availability query without a name makes the length of the name wrap around (`emulator/master.cpp:61`); `Master.MasterServer.Receive` ignores it.
- Exceptions other than a refused row, a value that does not convert and a password that does not decode; in particular a failing send.
- SQLite and MySQL: a game's table is a map from endpoints to the server data of the last update, the player table a sequence of rows. Column types, added columns, the authorizer callbacks and the filter's evaluation are not part of the model; the servers that a query returns are a parameter.
- `Master.MasterServer.AddOrUpdateServer`: does not model which keys of the server data have a column; whether the table accepts them is a parameter.
- `Master.MasterServer.RemoveServers`: a row is removed from one map shared by all games, not from a database object of its own.
- `Login.AlwaysAgreed`: is stated over the step functions that the methods of `LoginClient` and `PlayerTable` are proved against, not over several objects of these classes on one heap.
- `Master.ListedShowsLatest`: does not cover runs in which a heartbeat of this server was refused, or runs after a change of game.
- `BrowserClient.ClientReadsList`: assumes an empty list of popular values, which nothing sets, and that all records convert; push updates, groups and the queries behind the list are not part of it.
- `ListRequest.ParsePrinted`: takes the bytes of a number in the order they stand, as the compiler's evaluation order of the increments in `emulator/sb_request.cpp:47` is not fixed by the language rules that apply to `|`.
- `Base64.DecodeEncode`: on a single left-over character the library iterator reads past the end of the text; the model refuses such text, which no encoder produces.
- `Sapphire.Cipher.Initialize`: the constructor skips it for an empty key and leaves the cards uninitialised; the model uses the state of `hash_init` there, and `BrowserClient` never builds such a cipher. `hash_final` and `burn` are not modelled.
- `Login.LoginClient.HandleLogin`: the session key shown to the client is its CRC-16, about which nothing further is proved.
- `Parsing.DecimalRoundTrip`: dates and the other number formats of the helper library are not modelled.
- Secrecy and collision resistance of the ciphers and digests, and an inverse of `encode`, whose index depends on the clear character.
- The administration and statistics servers, the search server, option parsing and the calculation of master server names: plumbing, or easy.
