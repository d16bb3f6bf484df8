# A verified model of the FastCGI record layer

This project models the C library in `src/fastcgi/libfcgi`: the record layer of the FastCGI
protocol (`fcgiapp.c`, FastCGI Specification 1.0) and the asynchronous I/O table (`os_unix.c`).
It proves what they promise. Code that updates buffers and counters in place is written as
classes with the same fields and the same loops; each method is proved equal to a function on
values, and the theorems are about those functions and about whole programs that use the classes.

The modules, from the bytes up:

- `Wire`, `NameValue`, `Links`, `Buffers`: record and name-value encodings with their parsers,
  a connection that cuts reads and writes as it likes and whose writes may fail and later
  succeed again, buffer arithmetic.
- `Params`: the growing vector of environment strings and its lookup.
- `ReaderSpec`, `ReaderFacts`, `Readers`, `ReaderClients`: the demultiplexing reader. The
  specification works byte by byte on all unread bytes. The class has the buffer and the
  pointers, is re-entrant through `eorStop`, and is proved equal to the specification, so that
  nothing a client sees depends on how the network cut the bytes.
- `Demux`, `RequestStreams`, `GetValues`, `ReaderReplies`: the reader record by record against
  sections 3.3, 4 and 5.5 of the specification, and its replies byte for byte.
- `WriterSpec`, `WriterLog`, `Writers`, `WriterFailures`, `OutputRuns`, `OutputClients`: the two
  output streams that share a connection, pad their records and cooperate on END_REQUEST.
- `RoundTrip`, `Tiling`: writer against reader, and both on one connection.
- `AcceptSpec`, `Lifecycle`, `LifecycleRuns`: `FCGX_Accept_r`, `FCGX_Finish_r`, `FCGX_Free`.
- `Exchange`: one exchange with a web server from its first byte to its last.
- `AsyncSpec`, `AsyncInvariant`, `AsyncRuns`, `AsyncIo`: registering, closing and dispatching
  asynchronous operations, with callbacks that do the same while they run.

`dafny verify dfyconfig.toml` checks everything.

Where the code departs from the protocol or from what it promises, the model follows the code,
and the exact condition is proved:

- An empty record of another request makes the reader skip the content of the next record that
  has any. `RequestStreams.Demultiplexes` says that the stream is read right exactly if this hits
  no record of its own; `RequestStreams.EmptyForeignLoses` is an instance.
- The body of a management record of unknown type is handed to the client
  (`RequestStreams.UnknownTypeLeaks`); `RequestStreams.Demultiplexes` says that it must be empty
  or skipped, exactly.
- The padding of BEGIN_REQUEST and of a stream's last record is forgotten when the next stream
  starts. It must be empty, exactly (`RequestStreams.AfterEnd`, `RequestStreams.BeginRequest`).
- GET_VALUES: a name with a NUL before its first '=' makes the library write through a null
  pointer, and a reply that repeats names can overrun its 64-byte buffer. `GetValues.AnswerableIff`
  is the exact condition, `RequestStreams.NulNameIsWild` and `GetValues.RepeatedNamesOverrun` are
  instances. The flag `undefined` of a connection records that this has happened. The model goes
  on behind it as if nothing had, but what a theorem says of a state with the flag set is a
  statement about the model and not about the C code. The theorems about streams exclude such
  queries, and those about the wire except connections with the flag set.
- The exit status is not reset between requests: the second of two requests ends with the status
  last set in either (`LifecycleRuns.ServeTwo`, `LifecycleRuns.StatusCarriesOver`).
- After a failed write the buffer is kept, padding included. If writing succeeds again,
  FCGX_FClose makes a record of all of it: right exactly if nothing of the failed write got
  through, the content needed no padding and the closing records fit the buffer
  (`WriterFailures.ReemittedRightIff`, `WriterFailures.RecoveredRightIff`).
- A connection that breaks off between two pairs of PARAMS, or goes on with another protocol
  version there, is accepted, with an error recorded on its input (`AcceptSpec.AcceptsCutOff`,
  `AcceptSpec.VersionInParams`).
- `OS_DoIo` polls exactly if both counters of posted operations are zero
  (`AsyncRuns.DoIoServesExactly`), which is exactly if nothing is posted and no close has taken a
  posted descriptor away (`AsyncRuns.QuietPosted`). So `OS_Close` of a descriptor found ready but
  not yet served silences it for good (`AsyncRuns.SilentForever`), and `OS_CloseRead` of such a
  descriptor until an operation is registered on it (`AsyncRuns.SilentWhileStale`), which is then
  served unpolled (`AsyncRuns.StartedPostedIff`, `AsyncInvariant.CloseReadBreaks`).

Conditions a theorem needs from the environment are its `requires`: room on the connection for
the replies, no write failure, names without '='. The invariants of the classes and the runs of
`LifecycleRuns` need none of these.

## Model

| member | source | states |
|---|---|---|
| `RequestStreams.Demultiplexes` | src/fastcgi/libfcgi/fcgiapp.c:1588-1742 | section 3.3: reading a stream to EOF gives the joined contents of its records iff no record of the stream is swallowed (given no leak), and iff no unknown management record leaks (given no loss), with foreign, refused, query and unknown records interleaved anywhere |
| `RequestStreams.AfterEnd` | src/fastcgi/libfcgi/fcgiapp.c:1701-1742 | after the ending record: no error, all replies written in order, and the next stream starts with that record's padding still unread, so it starts at the right byte iff the padding is empty |
| `RequestStreams.ProtocolErrorEnds` | src/fastcgi/libfcgi/fcgiapp.c:1588-1613 | a record out of place (an own id with another type, a BEGIN_REQUEST with id 0 or a body not of 8 bytes) ends the stream with error -3, after exactly what the records before it deliver |
| `RequestStreams.TornQueryEnds` | src/fastcgi/libfcgi/fcgiapp.c:1465-1469 | a GET_VALUES record that ends inside a pair ends the stream with error -4, after exactly what the records before it deliver |
| `RequestStreams.VersionErrorEnds` | src/fastcgi/libfcgi/fcgiapp.c:1592-1593 | a header of another protocol version, wherever it comes, ends the stream with error -2, after exactly what the records before it deliver, with their replies written and nothing else |
| `RequestStreams.FailedReplyEnds` | src/fastcgi/libfcgi/fcgiapp.c:1501-1503 | a reply the connection does not take whole ends the stream with the error of that write; of the replies exactly what there was room for is written |
| `RequestStreams.FilterDataIff` | src/fastcgi/libfcgi/fcgiapp.c:2276-2288 | FCGX_StartFilterData succeeds iff the role is 3 and STDIN is at EOF; otherwise the stream gives nothing more, with error -5 unless an earlier one is on record |
| `RequestStreams.CutOffEnds` | src/fastcgi/libfcgi/fcgiapp.c:1631-1644 | input that ends anywhere inside a stream: exactly what has come of it is delivered, the replies are those due, and the error is the connection's, -3 at end of file |
| `RequestStreams.ReadSection` | src/fastcgi/libfcgi/fcgiapp.c:1845-1857 | one clean stream read to EOF gives its projection and leaves the reader at the start of the next one, its replies written |
| `RequestStreams.ThreeStreams` | src/fastcgi/libfcgi/fcgiapp.c:2276-2288 | PARAMS, then STDIN, then for a filter DATA after FCGX_StartFilterData: each read gives its own stream; other roles are refused DATA |
| `RequestStreams.EmptyForeignLoses` | src/fastcgi/libfcgi/fcgiapp.c:1656-1725 | a concrete stream whose content vanishes after an empty foreign record |
| `RequestStreams.UnknownTypeLeaks` | src/fastcgi/libfcgi/fcgiapp.c:1493-1506 | a concrete unknown management record whose body is delivered as stream content |
| `RequestStreams.NulNameIsWild` | src/fastcgi/libfcgi/fcgiapp.c:1470-1471 | a concrete query, for a name that is a NUL, on which the library writes through a null pointer |
| `RequestStreams.PassOverture` | src/fastcgi/libfcgi/fcgiapp.c:1631-1742 | ignorable records before BEGIN_REQUEST are answered and passed over |
| `RequestStreams.BeginAtBoundary` | src/fastcgi/libfcgi/fcgiapp.c:1527-1564 | BEGIN_REQUEST is taken in iff its body is not swallowed; its padding stays unread |
| `RequestStreams.BeginRequest` | src/fastcgi/libfcgi/fcgiapp.c:1527-1613 | a new reader reaches the request its BEGIN_REQUEST announces, with role, id and keep-conn bit from its bytes, and PARAMS follows at the right byte iff that record has no padding |
| `Demux.DrainRecords` | src/fastcgi/libfcgi/fcgiapp.c:1624-1742 | induction over the records: bytes delivered, replies written, and the state at a proper or an improper end |
| `Demux.OneRecord` | src/fastcgi/libfcgi/fcgiapp.c:1624-1742 | what one record that does not end the stream contributes |
| `Demux.DrainTo` | src/fastcgi/libfcgi/fcgiapp.c:1624-1742 | what any run of such records gives, before whatever follows them |
| `Demux.StopAtTornQuery` | src/fastcgi/libfcgi/fcgiapp.c:1465-1469 | a torn query records the parameter error |
| `Demux.StopAtCutQuery` | src/fastcgi/libfcgi/fcgiapp.c:1454-1469 | a query that input cuts off is not answered |
| `Demux.StopAtCutContent` | src/fastcgi/libfcgi/fcgiapp.c:1631-1664 | another record that input cuts off delivers what has come of it |
| `Demux.WildIff` | src/fastcgi/libfcgi/fcgiapp.c:1470-1492 | answering a query of whole pairs is undefined in C iff a name has a NUL before its first '=' or the reply does not fit |
| `Demux.PassOver` | src/fastcgi/libfcgi/fcgiapp.c:1645-1696 | a record that yields nothing is skipped whole, padding included |
| `Demux.YieldRecord` | src/fastcgi/libfcgi/fcgiapp.c:1645-1655 | a record's content reaches the client, and then its padding is skipped |
| `Demux.StopAtEnd` | src/fastcgi/libfcgi/fcgiapp.c:1709-1720 | an empty record of the stream closes it |
| `Demux.StopAtBad` | src/fastcgi/libfcgi/fcgiapp.c:1735-1741 | a record of the wrong type records the error |
| `Demux.StopAtVersion` | src/fastcgi/libfcgi/fcgiapp.c:1592-1593 | the fill that meets such a header consumes it and records the error |
| `Demux.StopAtFailedReply` | src/fastcgi/libfcgi/fcgiapp.c:1545-1547 | so does a reply that is not taken whole, for each of the three replies |
| `Demux.PendingIsSwallowed` | src/fastcgi/libfcgi/fcgiapp.c:1656-1725 | the skip flag is pending iff an empty foreign record came before with only empty records since |
| `Demux.DeliveredSize` | src/fastcgi/libfcgi/fcgiapp.c:1588-1742 | delivered plus lost equals projected plus leaked, and delivered equals projected when both are none |
| `ReaderSpec.Fill` | src/fastcgi/libfcgi/fcgiapp.c:1624-1742 | progress: unread bytes never grow, and once BEGIN_REQUEST was seen it ends closed or with a byte to deliver |
| `ReaderSpec.FillNested` | src/fastcgi/libfcgi/fcgiapp.c:1683-1686 | a nested fill never reads past the record and ends closed or deliverable |
| `ReaderSpec.GetChar` | src/fastcgi/libfcgi/fcgiapp.c:108-126 | each byte uses up input; EOF means closed |
| `ReaderFacts.GetStrBulk` | src/fastcgi/libfcgi/fcgiapp.c:143-181 | taking m buffered bytes at once is m single reads |
| `ReaderFacts.DrainAfterGetStr` | src/fastcgi/libfcgi/fcgiapp.c:143-181 | reading n bytes and then the rest is reading all |
| `ReaderFacts.ReadLineIsLine` | src/fastcgi/libfcgi/fcgiapp.c:200-221 | a line and then the rest is reading all; the line has at most n bytes, 10 at most as its last, and is shorter only at 10 or EOF |
| `ReaderFacts.GetLineIsLine` | src/fastcgi/libfcgi/fcgiapp.c:200-221 | FCGX_GetLine is NULL iff nothing is left before EOF, else such a line of at most n - 1 bytes |
| `ReaderFacts.TakeNestedIsGetStr` | src/fastcgi/libfcgi/fcgiapp.c:1552-1555 | a nested read of a record body is GetStr |
| `ReaderFacts.DrainNestedIsDrain` | src/fastcgi/libfcgi/fcgiapp.c:1454-1470 | a nested read to the record's end is reading to EOF |
| `ReaderFacts.TakeHeaderSplit` | src/fastcgi/libfcgi/fcgiapp.c:1688-1696 | collecting a header in two portions is collecting it at once |
| `ReaderFacts.SkipSplit` | src/fastcgi/libfcgi/fcgiapp.c:1651-1664 | skipping content in two portions is skipping it at once |
| `ReaderFacts.SkipPaddingSplit` | src/fastcgi/libfcgi/fcgiapp.c:1669-1678 | the same for padding |
| `Readers.Reader.constructor` | src/fastcgi/libfcgi/fcgiapp.c:1754-1872 | NewReader: an empty buffer over the connection's bytes |
| `Readers.Reader.Refill` | src/fastcgi/libfcgi/fcgiapp.c:1631-1644 | OS_Read into the empty buffer changes no unread byte; at the end it records why |
| `Readers.Reader.Turn` | src/fastcgi/libfcgi/fcgiapp.c:1631-1696 | one turn of the loop, whatever part of content, padding or header is buffered, keeps the outcome of the whole call and uses up bytes |
| `Readers.Reader.FillBuffProc` | src/fastcgi/libfcgi/fcgiapp.c:1624-1742 | equals the byte-level specification whatever the buffer holds and however reads are cut; nested at most one level |
| `Readers.Reader.HandleHeader` | src/fastcgi/libfcgi/fcgiapp.c:1697-1742 | acts on a whole header as the specification resumes after it |
| `Readers.Reader.Interpret` | src/fastcgi/libfcgi/fcgiapp.c:1697-1704 | runs ProcessHeader with eorStop set and clears what it left behind |
| `Readers.Reader.ProcessHeader` | src/fastcgi/libfcgi/fcgiapp.c:1588-1613 | dispatches on version, type and request id as specified; what the version test is for is VersionErrorEnds |
| `Readers.Reader.ProcessBeginRecord` | src/fastcgi/libfcgi/fcgiapp.c:1527-1564 | takes in, refuses or rejects BEGIN_REQUEST as specified |
| `Readers.Reader.ProcessManagementRecord` | src/fastcgi/libfcgi/fcgiapp.c:1454-1507 | answers GET_VALUES and unknown management records as specified; the bytes are those of module ReaderReplies |
| `Readers.Reader.AnswerQuery` | src/fastcgi/libfcgi/fcgiapp.c:1470-1492 | builds the reply content for the variables the library knows |
| `Readers.Reader.GetChar` | src/fastcgi/libfcgi/fcgiapp.c:108-126 | the next byte of the logical stream, or EOF |
| `Readers.Reader.GetStr` | src/fastcgi/libfcgi/fcgiapp.c:143-181 | n bytes are n single reads: same bytes, same state |
| `Readers.Reader.ReadLength` | src/fastcgi/libfcgi/fcgiapp.c:1145-1168 | a one- or four-byte length, or the cut |
| `Readers.Reader.ReadPair` | src/fastcgi/libfcgi/fcgiapp.c:1145-1185 | one whole pair, or the cut, tied to what is left of the stream |
| `Readers.Reader.ReadParams` | src/fastcgi/libfcgi/fcgiapp.c:1138-1190 | returns 0 iff the bytes up to EOF are whole pairs, else -1 with an error; the vector gains exactly the complete leading pairs |
| `Readers.Reader.SetReaderType` | src/fastcgi/libfcgi/fcgiapp.c:1845-1857 | reopens the stream with content, padding and skip forgotten |
| `Readers.Reader.StartFilterData` | src/fastcgi/libfcgi/fcgiapp.c:2276-2288 | 0 iff the role is 3 and STDIN is at EOF, and then on to DATA; otherwise -1, the stream closed, error -5 unless one is on record |
| `Readers.Reader.GetLine` | src/fastcgi/libfcgi/fcgiapp.c:200-221 | NULL iff nothing is left before EOF; else up to n - 1 bytes, stopped after the first newline or at EOF, and the stream goes on behind them |
| `Readers.Reader.UnGetChar` | src/fastcgi/libfcgi/fcgiapp.c:237-246 | the byte is next again, or EOF when the stream is closed or nothing was read since the last fill; at the very start of the buffer, where the source steps before it, it is noted as undefined |
| `ReaderClients.RunClient` | src/fastcgi/libfcgi/fcgiapp.c:108-221 | a run of calls answers as the byte-level specification, a function of the unread bytes only |
| `ReaderClients.RunTwice` | src/fastcgi/libfcgi/fcgiapp.c:1631-1696 | chunking independence: same bytes ahead, same answers, errors and replies, however each connection cuts its reads |
| `ReaderClients.GetStrAfterPushAll` | src/fastcgi/libfcgi/fcgiapp.c:237-246 | pushed bytes come back last in, first out, and the rest of the stream is unchanged |
| `ReaderClients.PushBackAll` | src/fastcgi/libfcgi/fcgiapp.c:237-246 | pushbacks that stay this side of the last fill all succeed |
| `ReaderClients.ReadThenPushBack` | src/fastcgi/libfcgi/fcgiapp.c:108-246 | up to k reads with no fill after the first, and then as many pushbacks: all succeed, come back in reverse, and the stream goes on where the reads left it |
| `ReaderClients.ReadBuffered` | src/fastcgi/libfcgi/fcgiapp.c:108-126 | such reads end only at EOF or where the next fill is due |
| `ReaderClients.ReadAll` | src/fastcgi/libfcgi/fcgiapp.c:108-126 | reading to EOF byte by byte terminates with the whole stream |
| `NameValue.ParseOfSpellings` | src/fastcgi/libfcgi/fcgiapp.c:1138-1190 | section 3.4: any mix of one- and four-byte lengths parses to the pairs spelled, up to the first torn pair |
| `NameValue.SpellingsOfParse` | src/fastcgi/libfcgi/fcgiapp.c:1138-1190 | conversely every byte string is spelled pairs and then a rest that starts no whole pair |
| `NameValue.TakePairExact` | src/fastcgi/libfcgi/fcgiapp.c:1144-1186 | a byte string starts with a whole pair iff some spelling of a pair is its prefix |
| `NameValue.LongLengthIs` | src/fastcgi/libfcgi/fcgiapp.c:1148-1155 | section 3.4: a four-byte length is big-endian without the top bit |
| `NameValue.ParseCompleteExact` | src/fastcgi/libfcgi/fcgiapp.c:1138-1190 | the parse is complete iff the bytes are a concatenation of spelled pairs |
| `Params.PutAllLaws` | src/fastcgi/libfcgi/fcgiapp.c:1076-1088 | after n entries: in order, terminator inside the capacity, capacity initial times a power of two, fewer than 2n entries moved |
| `Params.PutAmortised` | src/fastcgi/libfcgi/fcgiapp.c:1076-1088 | the amortised bound is kept by one more entry |
| `Params.EntryMatches` | src/fastcgi/libfcgi/fcgiapp.c:1103-1118 | strncmp and '=' match an entry iff the names are equal, when the name has no '=' |
| `Params.LookupIsFirstNamed` | src/fastcgi/libfcgi/fcgiapp.c:1103-1118 | FCGX_GetParam gives the value of the first pair of that name, or NULL |
| `Params.LookupSeesThroughEquals` | src/fastcgi/libfcgi/fcgiapp.c:1103-1118 | a name with '=' in it is found under its first part: why plain names are asked for |
| `Params.ParamVector.PutParam` | src/fastcgi/libfcgi/fcgiapp.c:1076-1088 | appends to the vector in place, doubling it when the terminator would not fit |
| `Params.ParamVector.GetParam` | src/fastcgi/libfcgi/fcgiapp.c:1103-1118 | the scan of the vector is Lookup |
| `Params.ParamVector.constructor` | src/fastcgi/libfcgi/fcgiapp.c:1023-1032 | an empty vector of the given length |
| `GetValues.ReplyRoundTrip` | src/fastcgi/libfcgi/fcgiapp.c:1470-1492 | section 4.1: the reply read back gives exactly the known names in query order |
| `GetValues.AnswersAre` | src/fastcgi/libfcgi/fcgiapp.c:1476-1486 | MAX_CONNS and MAX_REQS are answered 1, MPXS_CONNS 0 |
| `GetValues.ReplySize` | src/fastcgi/libfcgi/fcgiapp.c:1470-1492 | how long the reply is, by how often each name is asked |
| `GetValues.AnswerableIff` | src/fastcgi/libfcgi/fcgiapp.c:1454-1492 | C defines the reply iff every environment string has its '=' before any NUL and the answers sum up to at most 55 bytes; each name once is enough for the latter |
| `GetValues.AskingPlain` | src/fastcgi/libfcgi/fcgiapp.c:1471-1471 | a name without '=' is asked for as it is, one with '=' by its first part |
| `GetValues.HasNameIff` | src/fastcgi/libfcgi/fcgiapp.c:1471-1471 | the '=' is found iff the part of the name before its first '=' has no NUL |
| `GetValues.NulNameUndefined` | src/fastcgi/libfcgi/fcgiapp.c:1471-1471 | a concrete query whose only name is a NUL |
| `GetValues.ReplyIsRecord` | src/fastcgi/libfcgi/fcgiapp.c:1488-1491 | a reply that fits is one whole padded record |
| `GetValues.RepeatedNamesOverrun` | src/fastcgi/libfcgi/fcgiapp.c:1470-1492 | a query that asks four times does not fit |
| `ReaderReplies.UnknownReplyIs` | src/fastcgi/libfcgi/fcgiapp.c:1493-1506 | section 4.2: the reply to unknown type t is the 16 bytes 1 11 0 0 0 8 0 0 t and seven zeros, the record (11, 0, [t, 0, ...]) |
| `ReaderReplies.UnknownAnswered` | src/fastcgi/libfcgi/fcgiapp.c:1493-1506 | reading over such a record writes exactly these bytes |
| `ReaderReplies.RefusalReplyIs` | src/fastcgi/libfcgi/fcgiapp.c:1538-1550 | a refused BEGIN_REQUEST is answered by the END_REQUEST record with body 0 0 0 0 1 0 0 0 |
| `ReaderReplies.RefusalAnswered` | src/fastcgi/libfcgi/fcgiapp.c:1538-1550 | reading over a second BEGIN_REQUEST writes exactly this record and delivers nothing of it |
| `ReaderReplies.AllThreeAnswered` | src/fastcgi/libfcgi/fcgiapp.c:1454-1492 | the query for all three variables of section 4.1, in bytes, is answered on the wire by 64 bytes, given in full |
| `Wire.HeaderRoundTrip` | src/fastcgi/libfcgi/fcgiapp.c:1201-1219 | MakeHeader read back gives type, id and lengths |
| `Wire.RecordLayout` | src/fastcgi/libfcgi/fcgiapp.c:1201-1219 | section 3.3: where version, type, id, lengths, content and padding lie, id and length big-endian |
| `Wire.FourBytesRoundTrip` | src/fastcgi/libfcgi/fcgiapp.c:1230-1242 | a 32-bit status survives as big-endian two's complement |
| `Wire.FourBytes` | src/fastcgi/libfcgi/fcgiapp.c:1230-1242 | four big-endian bytes, for a negative status those of its two's complement |
| `Wire.EndRequestCompletes` | src/fastcgi/libfcgi/fcgiapp.c:1230-1242 | section 5.5: END_REQUEST of a completed request carries the 32-bit status in its first four bytes, then four zeros, and no padding |
| `Wire.ParseBytes` | src/fastcgi/libfcgi/fcgiapp.c:1386-1430 | a sequence of records written out parses back to itself |
| `Wire.BytesParse` | src/fastcgi/libfcgi/fcgiapp.c:1386-1430 | whatever parses is the bytes of the records parsed |
| `Wire.FirstRecordOfBytes` | src/fastcgi/libfcgi/fcgiapp.c:1588-1742 | a record in front of other bytes is found whole |
| `Wire.AlignInt8` | src/fastcgi/libfcgi/fcgiapp.c:1272-1274 | the smallest multiple of 8 not below n |
| `Wire.Padded` | src/fastcgi/libfcgi/fcgiapp.c:1397-1408 | a record padded to a multiple of 8 fits the format |
| `Buffers.NewBufferLaws` | src/fastcgi/libfcgi/fcgiapp.c:1765-1782 | for every requested size and address: aligned, inside the allocation, a multiple of 8 between 24 and 65536 |
| `Links.Connection.Read` | src/fastcgi/libfcgi/os_unix.c:457-461 | OS_Read: any nonempty prefix that fits, then the terminal result |
| `Links.Connection.Write` | src/fastcgi/libfcgi/os_unix.c:479-483 | OS_Write: between one byte and all of them, or failure |
| `Links.Connection.WriteAll` | src/fastcgi/libfcgi/fcgiapp.c:1362-1374 | write_it_all: everything, or the prefix before the first failure |
| `Links.SendJoin` | src/fastcgi/libfcgi/fcgiapp.c:1362-1374 | two writes are one write of the joined bytes up to the first failure |
| `Writers.Writer.constructor` | src/fastcgi/libfcgi/fcgiapp.c:1754-1888 | NewWriter: header space reserved in an aligned buffer |
| `Writers.Writer.Encapsulate` | src/fastcgi/libfcgi/fcgiapp.c:1396-1412 | what is held becomes one padded record in place; padding never passes the buffer's end and MakeHeader's assertions hold |
| `Writers.Writer.WriteBuffer` | src/fastcgi/libfcgi/fcgiapp.c:1417-1425 | the buffer goes out; after a failure it is kept |
| `Writers.Writer.EmptyBuffProc` | src/fastcgi/libfcgi/fcgiapp.c:1386-1430 | emptying makes one record, or in raw mode writes the bytes as they are, and leaves room or closes; closing is the held record, the closing records and one last write |
| `Writers.Writer.WriteCloseRecords` | src/fastcgi/libfcgi/fcgiapp.c:1326-1358 | EOF unless STDERR never carried a byte, END_REQUEST for the last writer, put in raw mode, torn or cut off where a failed stream has no space; what END_REQUEST says is EndRequestCompletes |
| `Writers.Writer.PutChar` | src/fastcgi/libfcgi/fcgiapp.c:282-293 | one byte held, or the buffer emptied first, or -1 |
| `Writers.Writer.PutStr` | src/fastcgi/libfcgi/fcgiapp.c:310-341 | n bytes are n single puts: same buffer, same wire, same result, between public calls and in raw mode, with and without write errors |
| `Writers.Writer.PutStrGeneral` | src/fastcgi/libfcgi/fcgiapp.c:325-341 | the loop of PutStr keeps that |
| `Writers.Writer.FFlush` | src/fastcgi/libfcgi/fcgiapp.c:887-893 | writes out what is held, if the stream is open |
| `Writers.Writer.FClose` | src/fastcgi/libfcgi/fcgiapp.c:912-929 | closes once, 0 iff no error was recorded |
| `Writers.Writer.SetExitStatus` | src/fastcgi/libfcgi/fcgiapp.c:2304-2308 | the status the next END_REQUEST will carry |
| `Writers.CreateWriter` | src/fastcgi/libfcgi/fcgiapp.c:1902-1916 | a writer of its own request, which never sends END_REQUEST |
| `WriterSpec.PutAllBulk` | src/fastcgi/libfcgi/fcgiapp.c:310-341 | bytes that fit are taken at once: the same as one by one |
| `WriterSpec.PutAllAfterEmpty` | src/fastcgi/libfcgi/fcgiapp.c:334-341 | emptying a full buffer first does not change a put |
| `WriterSpec.CloseOpen` | src/fastcgi/libfcgi/fcgiapp.c:1326-1430 | closing an open stream writes the held record and the closing records as one write would; an error is recorded iff a write fails |
| `WriterSpec.RawPuts` | src/fastcgi/libfcgi/fcgiapp.c:310-341 | puts in raw mode, with what is held, come to one write of everything until a write fails |
| `WriterSpec.ClosedPuts` | src/fastcgi/libfcgi/fcgiapp.c:310-341 | a failed stream still holds what fits, and drops the rest |
| `WriterSpec.PutAllCounts` | src/fastcgi/libfcgi/fcgiapp.c:310-341 | puts record an error iff a write fails, and keep the first one |
| `WriterSpec.CloseCounts` | src/fastcgi/libfcgi/fcgiapp.c:912-929 | so does closing |
| `WriterFailures.CloseFailed` | src/fastcgi/libfcgi/fcgiapp.c:1386-1430 | FCGX_FClose of a failed stream writes a record of all the buffer has kept and as much of the closing records as the buffer has space for |
| `WriterFailures.FailedThenClosed` | src/fastcgi/libfcgi/fcgiapp.c:1386-1430 | a failed write and then a close that gets through: the torn record, the content again with its padding as content, the closing records |
| `WriterFailures.ReemittedRightIff` | src/fastcgi/libfcgi/fcgiapp.c:1397-1430 | what is emitted again is what should have been written iff the content needed no padding and the closing records fit the buffer |
| `WriterFailures.RecoveredRightIff` | src/fastcgi/libfcgi/fcgiapp.c:1386-1430 | the wire as a whole is right iff, besides, nothing of the failed write got through |
| `WriterFailures.ReemittedRecords` | src/fastcgi/libfcgi/fcgiapp.c:1397-1430 | if they fit they are whole records, whose reader gets the padding as content |
| `WriterFailures.OneByteBecomesEight` | src/fastcgi/libfcgi/fcgiapp.c:1386-1430 | a concrete stream of one byte whose reader gets eight |
| `WriterSpec.CloseBytes` | src/fastcgi/libfcgi/fcgiapp.c:1326-1358 | the closing records as the bytes WriteCloseRecords makes |
| `WriterLog.PutAllTracks` | src/fastcgi/libfcgi/fcgiapp.c:310-341 | contents of the records written plus bytes held are the bytes put, no record empty |
| `WriterLog.CloseTracks` | src/fastcgi/libfcgi/fcgiapp.c:1326-1430 | closing turns what is held into a record |
| `WriterLog.CloseWrote` | src/fastcgi/libfcgi/fcgiapp.c:1326-1430 | the bytes closing writes are its records |
| `WriterLog.ProjectIsJoin` | src/fastcgi/libfcgi/fcgiapp.c:1386-1430 | section 3.3's projection is the join of the contents |
| `OutputRuns.CompleteRun` | src/fastcgi/libfcgi/fcgiapp.c:1326-1430 | sections 5.5 and 6.1, over any interleaving of puts, flushes, status settings and closes in which no write fails: no error; whole aligned records; projections equal the bytes put; only empty record last in each stream; STDERR silent if never used; one END_REQUEST, last, whose bytes spell the status then in force and REQUEST_COMPLETE |
| `OutputRuns.FlushedRun` | src/fastcgi/libfcgi/fcgiapp.c:887-893 | after any run that ends with FCGX_FFlush of a stream and has no write fail, the records on the wire hold every byte put on that stream |
| `OutputRuns.RunKeeps` | src/fastcgi/libfcgi/fcgiapp.c:1326-1430 | the invariant behind it holds over every run that meets no error, and the wire is the records recalled |
| `OutputRuns.NoErrorIff` | src/fastcgi/libfcgi/fcgiapp.c:912-929 | a run meets no error iff none of its writes fails |
| `OutputRuns.RunStatus` | src/fastcgi/libfcgi/fcgiapp.c:2304-2308 | after any run the status is the last one set |
| `OutputRuns.StatusWhenClosed` | src/fastcgi/libfcgi/fcgiapp.c:2002-2021 | closing both streams after calls that close neither ends the request with that status |
| `OutputRuns.StepKeeps` | src/fastcgi/libfcgi/fcgiapp.c:1326-1430 | each call that meets no error keeps the invariant |
| `OutputRuns.RecallPut` | src/fastcgi/libfcgi/fcgiapp.c:310-341 | the history's bytes are those put before the stream was closed, with or without errors |
| `OutputRuns.RecallEnded` | src/fastcgi/libfcgi/fcgiapp.c:2304-2308 | END_REQUEST carries the status set last before the second close |
| `OutputRuns.StepFlags` | src/fastcgi/libfcgi/fcgiapp.c:912-929 | nWriters and the finished flags move as FCGX_FClose moves them |
| `OutputClients.RunOutputs` | src/fastcgi/libfcgi/fcgiapp.c:282-341 | two writers on one connection, driven in any interleaving, end in the specified state |
| `RoundTrip.CopyThrough` | src/fastcgi/libfcgi/fcgiapp.c:1902-1916 | whatever is put through FCGX_CreateWriter, in any portions, with any buffer sizes and any cuts of writes and reads, is read back exactly and then EOF, unless FCGX_FClose reported an error, and it does iff a write failed |
| `RoundTrip.WriteAndClose` | src/fastcgi/libfcgi/fcgiapp.c:1386-1430 | puts, flushes and the close leave whole records of one type whose contents join to the bytes put, then EOF |
| `RoundTrip.ReadBack` | src/fastcgi/libfcgi/fcgiapp.c:1624-1742 | a reader of that type and id drains exactly those bytes |
| `Tiling.AlwaysTiled` | src/fastcgi/libfcgi/fcgiapp.c:1386-1430 | any interleaving of reads, pushbacks and output calls of a request leaves whole version-1 records on the wire, each a multiple of 8 bytes, unless a write failed or C leaves undefined what was done |
| `Tiling.FillGoes` | src/fastcgi/libfcgi/fcgiapp.c:1454-1564 | every reply of the reader is a whole record |
| `Tiling.AnsweredGoes` | src/fastcgi/libfcgi/fcgiapp.c:108-246 | every read call writes whole records only |
| `Tiling.DrainGoes` | src/fastcgi/libfcgi/fcgiapp.c:1138-1190 | so does reading to EOF, as FCGX_Accept_r does |
| `Tiling.RunGoes` | src/fastcgi/libfcgi/fcgiapp.c:282-341 | a run of output calls writes whole records only |
| `Tiling.OpGoes` | src/fastcgi/libfcgi/fcgiapp.c:1326-1430 | every output call writes whole records only |
| `Tiling.TiledParses` | src/fastcgi/libfcgi/fcgiapp.c:1386-1430 | bytes tiled by records parse as such |
| `AcceptSpec.AcceptsIff` | src/fastcgi/libfcgi/fcgiapp.c:2199-2250 | end to end from the wire: ignorable records, BEGIN_REQUEST and a clean PARAMS stream are accepted iff the role is 1, 2 or 3 and the stream is whole pairs (a torn one is error -4); then with exactly those pairs, STDIN next, and the replies due written |
| `AcceptSpec.AcceptsCutOff` | src/fastcgi/libfcgi/fcgiapp.c:2199-2250 | a connection that breaks off inside PARAMS is accepted iff the role is 1, 2 or 3 and what came is whole pairs, then with the error recorded on in |
| `AcceptSpec.RejectsSilence` | src/fastcgi/libfcgi/fcgiapp.c:2199-2205 | a connection that ends before BEGIN_REQUEST is rejected |
| `AcceptSpec.RejectsVersion` | src/fastcgi/libfcgi/fcgiapp.c:2199-2205 | a connection that speaks another protocol version before BEGIN_REQUEST is rejected with error -2 |
| `AcceptSpec.VersionInParams` | src/fastcgi/libfcgi/fcgiapp.c:2234-2238 | inside PARAMS such a header makes the request rejected iff it cuts a pair (or the role is unknown); between two pairs the request is accepted with error -2 recorded |
| `AcceptSpec.RolePairIs` | src/fastcgi/libfcgi/fcgiapp.c:2214-2226 | the entry for a role, in bytes |
| `AcceptSpec.RoleEntry` | src/fastcgi/libfcgi/fcgiapp.c:2214-2230 | the environment starts with FCGI_ROLE= and the role, in bytes |
| `AcceptSpec.OfferGoes` | src/fastcgi/libfcgi/fcgiapp.c:2199-2245 | whatever is written while a connection is tried is whole records |
| `AcceptSpec.AcceptsRequest` | src/fastcgi/libfcgi/fcgiapp.c:2178-2256 | in particular PARAMS that spell pairs, in any mix of length forms, are accepted with exactly those pairs |
| `AcceptSpec.EnvironmentAnswers` | src/fastcgi/libfcgi/fcgiapp.c:1103-1118 | FCGI_ROLE, in bytes, finds RESPONDER, AUTHORIZER or FILTER, in bytes, for roles 1, 2, 3; any other name its first pair's value |
| `AcceptSpec.FillSettles` | src/fastcgi/libfcgi/fcgiapp.c:1527-1564 | once begun, no later BEGIN_REQUEST changes the request |
| `AcceptSpec.DrainSettles` | src/fastcgi/libfcgi/fcgiapp.c:1138-1190 | nor does reading the environment |
| `AcceptSpec.AcceptedState` | src/fastcgi/libfcgi/fcgiapp.c:2199-2250 | an accepted request is begun, open and has a known role |
| `Lifecycle.TraceAlternates` | src/fastcgi/libfcgi/fcgiapp.c:2023-2037 | the trace of opens and closes alternates descriptor by descriptor |
| `Lifecycle.FcgxRequest.constructor` | src/fastcgi/libfcgi/fcgiapp.c:2049-2062 | FCGX_InitRequest: nothing open, nothing owned |
| `Lifecycle.FcgxRequest.Free` | src/fastcgi/libfcgi/fcgiapp.c:2023-2037 | all four parts gone; the descriptor closed if asked |
| `Lifecycle.FcgxRequest.Finish` | src/fastcgi/libfcgi/fcgiapp.c:2002-2021 | the connection survives iff keep-conn was set and no stream met an error; both writers are closed, err first, and what they write is stated; the exit status is kept; idempotent |
| `Lifecycle.FcgxRequest.CloseStreams` | src/fastcgi/libfcgi/fcgiapp.c:2010-2018 | both closes of FCGX_Finish_r, and that what they write keeps the wire whole records |
| `Lifecycle.FcgxRequest.TryConnection` | src/fastcgi/libfcgi/fcgiapp.c:2199-2245 | one open connection is accepted or rejected as specified; a rejected one is closed |
| `Lifecycle.FcgxRequest.Connect` | src/fastcgi/libfcgi/fcgiapp.c:2189-2198 | accepts a connection only when none is open |
| `Lifecycle.FcgxRequest.FindRequest` | src/fastcgi/libfcgi/fcgiapp.c:2186-2247 | the retry loop finds the first acceptable connection, all earlier ones closed, or runs out |
| `Lifecycle.FcgxRequest.AcceptNext` | src/fastcgi/libfcgi/fcgiapp.c:2186-2255 | on 0 the parts are those of that connection; otherwise nothing is owned |
| `Lifecycle.FcgxRequest.StartOutput` | src/fastcgi/libfcgi/fcgiapp.c:2248-2255 | two fresh writers and nWriters of 2 |
| `Lifecycle.FcgxRequest.Accept` | src/fastcgi/libfcgi/fcgiapp.c:2178-2256 | the first acceptable request of what FCGX_Finish_r leaves open and the connections to come, with its environment; 0: all four parts live, nWriters 2, role 1 to 3; otherwise -errno of the failed accept, or -9999 for errno 0, and none of them and no descriptor; the exit status is kept |
| `LifecycleRuns.RunLife` | src/fastcgi/libfcgi/fcgiapp.c:2002-2256 | any run of accepting, finishing, reading and writing: descriptors close at most once and one at a time; four parts or none; everything sent on the open connection and on every closed one is whole records, absent write failure and undefined behaviour |
| `LifecycleRuns.UseInput` | src/fastcgi/libfcgi/fcgiapp.c:108-221 | reading keeps all that, answers as the specified run and leaves the output streams alone |
| `LifecycleRuns.UseOutput` | src/fastcgi/libfcgi/fcgiapp.c:282-341 | writing keeps all that, ends as the specified run and leaves the last status set |
| `LifecycleRuns.ServeTwo` | src/fastcgi/libfcgi/fcgiapp.c:2178-2308 | of two requests the second ends with an END_REQUEST whose bytes spell the status last set in either, over any calls |
| `LifecycleRuns.StatusCarriesOver` | src/fastcgi/libfcgi/fcgiapp.c:2178-2308 | so a request that sets none ends with the one before's, and with 0 iff none was set or the last one set was 0 (from an initial 0) |
| `LifecycleRuns.SevenCarriesOver` | src/fastcgi/libfcgi/fcgiapp.c:2178-2308 | a concrete pair: 7 set in the first, the END_REQUEST of the second is the record with body 0 0 0 7 0 0 0 0 |
| `LifecycleRuns.AcceptAndLookUp` | src/fastcgi/libfcgi/fcgiapp.c:2178-2256 | accepting and then FCGX_GetParam finds the role's name in bytes under FCGI_ROLE, or the first pair's value |
| `LifecycleRuns.AcceptFromWire` | src/fastcgi/libfcgi/fcgiapp.c:2178-2256 | the same from the bytes a web server sends: roles 1 to 3 are accepted and found as RESPONDER, AUTHORIZER, FILTER |
| `LifecycleRuns.RunCounts` | src/fastcgi/libfcgi/fcgiapp.c:912-929 | nWriters counts the open output streams, with or without errors |
| `LifecycleRuns.AnsweredSettles` | src/fastcgi/libfcgi/fcgiapp.c:108-221 | reading changes neither the request served nor its role |
| `Exchange.Serve` | src/fastcgi/libfcgi/fcgiapp.c:2178-2308 | a whole exchange in bytes, after appendix B: a responder request with one parameter and a body of two bytes is accepted, looked up and read, and three bytes of output and status 258 come back as the 40 bytes given |
| `Exchange.SmallOutput` | src/fastcgi/libfcgi/fcgiapp.c:1326-1430 | whatever fits the buffer of STDOUT goes out as one padded record, EOF and END_REQUEST with the status set |
| `AsyncRuns.EveryRun` | src/fastcgi/libfcgi/os_unix.c:571-916 | over every run with re-entrant callbacks: the invariant holds; unless an OS_CloseRead hit a posted read, nothing stays posted after OS_DoIo and both counters are zero iff no close took a posted descriptor away |
| `AsyncRuns.DoIoServesTheReady` | src/fastcgi/libfcgi/os_unix.c:819-916 | a polling OS_DoIo calls back only operations pending and ready when it started, each of them unless a callback closed it, and leaves nothing posted |
| `AsyncRuns.PassServes` | src/fastcgi/libfcgi/os_unix.c:875-914 | the dispatch loop, with maxFd and the sets changing under it, serves every posted entry and no new one |
| `AsyncRuns.DoIoServesExactly` | src/fastcgi/libfcgi/os_unix.c:819-916 | in every state that keeps the invariant: OS_DoIo polls iff both counters are zero; an operation in the table is called back iff that poll finds it or, without a poll, it was posted before, except that a callback may close it first |
| `AsyncRuns.DoIoInOrder` | src/fastcgi/libfcgi/os_unix.c:875-914 | whatever the callbacks do, OS_DoIo makes them in the order of descriptors, a read before the write of the same one |
| `AsyncRuns.QuietPosted` | src/fastcgi/libfcgi/os_unix.c:845-873 | both counters are zero iff nothing is posted and no close has taken a posted descriptor away |
| `AsyncRuns.SilentWhileStale` | src/fastcgi/libfcgi/os_unix.c:845-914 | while no posted descriptor has an entry and a counter is not zero, no run calls anything back until an operation is registered on such a descriptor |
| `AsyncRuns.StartedPostedIff` | src/fastcgi/libfcgi/os_unix.c:571-704 | a new registration is posted from the start iff its descriptor's posted bit was left set |
| `AsyncRuns.SilentForever` | src/fastcgi/libfcgi/os_unix.c:727-746 | after a close has taken a posted descriptor away, and once nothing is posted, no run makes another callback |
| `AsyncRuns.CloseOfPostedSilences` | src/fastcgi/libfcgi/os_unix.c:727-746 | a concrete run in which that happens |
| `AsyncRuns.CloseReadOfPostedSilences` | src/fastcgi/libfcgi/os_unix.c:792-799 | a concrete run in which OS_CloseRead of a posted read, losing nothing, has the same effect |
| `AsyncRuns.CloseReadOfPostedServesNew` | src/fastcgi/libfcgi/os_unix.c:792-799 | a concrete run in which OS_CloseRead of a posted read gets a new registration served unpolled, in the same pass |
| `AsyncRuns.TwoReadsInv` | src/fastcgi/libfcgi/os_unix.c:630-655 | two registered reads meet the hypotheses of the dispatch theorems |
| `AsyncRuns.ClosedIsGone` | src/fastcgi/libfcgi/os_unix.c:722-746 | after OS_Close nothing of the descriptor is left, and maxFd steps back if it was the highest |
| `AsyncRuns.PerformFollows` | src/fastcgi/libfcgi/os_unix.c:571-799 | no call makes an operation posted or an old one pending |
| `AsyncInvariant.CloseReadBreaks` | src/fastcgi/libfcgi/os_unix.c:792-799 | OS_CloseRead breaks the one-of-two rule iff the descriptor is posted |
| `AsyncInvariant.LiveIffNotOver` | src/fastcgi/libfcgi/os_unix.c:571-916 | a registration still has its entry iff it was neither called back nor closed |
| `AsyncInvariant.BeginKeeps` | src/fastcgi/libfcgi/os_unix.c:571-704 | registering keeps the invariant |
| `AsyncInvariant.CloseKeeps` | src/fastcgi/libfcgi/os_unix.c:722-746 | closing keeps it |
| `AsyncInvariant.CloseReadKeeps` | src/fastcgi/libfcgi/os_unix.c:792-799 | so does closing for reading |
| `AsyncInvariant.PollKeeps` | src/fastcgi/libfcgi/os_unix.c:832-873 | so does a poll |
| `AsyncInvariant.TakeKeeps` | src/fastcgi/libfcgi/os_unix.c:879-913 | so does a dispatch: called at most once, with what was registered |
| `AsyncInvariant.ServedKeeps` | src/fastcgi/libfcgi/os_unix.c:819-916 | so does a whole OS_DoIo |
| `AsyncSpec.Grown` | src/fastcgi/libfcgi/os_unix.c:591-604 | the table size after doubling: large enough, and less than twice too large |
| `AsyncSpec.Serve` | src/fastcgi/libfcgi/os_unix.c:875-914 | a turn of the dispatch loop never adds to the posted sets, and leaves everything alone if it takes nothing from them; the loop's termination rests on it |
| `AsyncIo.AsyncTable.constructor` | src/fastcgi/libfcgi/os_unix.c:166-195 | OS_LibInit: an empty table of 16 entries |
| `AsyncIo.AsyncTable.GrowAsyncTable` | src/fastcgi/libfcgi/os_unix.c:591-604 | doubles the table and keeps every entry |
| `AsyncIo.AsyncTable.AsyncRead` | src/fastcgi/libfcgi/os_unix.c:630-655 | registers a read in place, growing the table first |
| `AsyncIo.AsyncTable.AsyncWrite` | src/fastcgi/libfcgi/os_unix.c:680-704 | registers a write in place, growing the table first |
| `AsyncIo.AsyncTable.AsyncReadStdin` | src/fastcgi/libfcgi/os_unix.c:571-589 | registers a read of descriptor 0 with offset 0 |
| `AsyncIo.AsyncTable.Close` | src/fastcgi/libfcgi/os_unix.c:722-746 | the table part of OS_Close |
| `AsyncIo.AsyncTable.CloseRead` | src/fastcgi/libfcgi/os_unix.c:792-799 | the table part of OS_CloseRead |
| `AsyncIo.AsyncTable.Select` | src/fastcgi/libfcgi/os_unix.c:845-870 | the poll and the loop that posts what it found |
| `AsyncIo.AsyncTable.DispatchPosted` | src/fastcgi/libfcgi/os_unix.c:875-914 | the dispatch loop against its specification |
| `AsyncIo.AsyncTable.DoIo` | src/fastcgi/libfcgi/os_unix.c:819-916 | OS_DoIo against its specification, keeping the invariant |
| `AsyncIo.RunEvents` | src/fastcgi/libfcgi/os_unix.c:571-916 | a program that registers, closes and calls OS_DoIo ends where the specified run ends |

## Left out

- Wire.AlignInt8: rounds on unbounded integers; the source masks 32-bit (AlignPtr8: pointer-sized) words, and the wrap-around within 7 of their maximum is not modelled.
- Readers.Reader.AnswerQuery: the 64-byte buffer is not memory; a reply that does not fit, or a name without an '=' before a NUL, is noted in the flag `undefined` and the reply is what it would have been.
- GetValues.ReplyIsRecord: the padding of a reply is zeros; in the source all of it but the first byte is whatever the buffer on the stack holds.
- ReaderClients.RunTwice: for the same reason the replies of two readers are equal up to their padding only.
- Readers.Reader.ReadParams: lengths are unbounded, so the 32-bit overflow of nameLen + valueLen + 2 is not modelled, and Malloc never fails.
- Links.Connection.Write: every failure of a connection reports the same errno, and FCGX_ClearError, after which a stream could be written to again, is not modelled.
- Lifecycle.FcgxRequest.Accept: OS_Accept fails only when no connection is left; the FCGI_FAIL_ACCEPT_ON_INTR flag, the accept lock and the address check are not modelled, and neither is the return of -9998 before initialisation.
- AsyncIo.AsyncTable.DoIo: select does not fail, the results of read and write that callbacks receive are not modelled, callbacks do not call OS_DoIo themselves, and descriptors are not bounded by FD_SETSIZE.
- AsyncIo.AsyncTable.Close: only the table; the shutdown, the draining reads and close(2) belong to the operating system. A close outside the table, which the source would carry out beyond its end, is not made.
- A stream is one class here as a reader and another as a writer, so calls in the wrong direction (guarded by isReader and by pointers that leave no room) and NULL streams are not modelled.
- FCGX_Request is split into the data its streams share and the object that owns them.
- FCGX_VFPrintF, FCGX_FPrintF: formatting depends on sprintf, va_arg and floating point; FCGX_PutS is FCGX_PutStr of a string's bytes.
- FCGX_HasSeenEOF, FCGX_GetError, FCGX_ClearError: reading or clearing one field.
- FCGX_Init, FCGX_Accept, FCGX_Finish, FCGX_IsCGI, FCGX_OpenSocket: wrappers around one global request, and set-up.
- Physical freeing of memory and allocation failure: ownership is a field being NULL or not.
- Sockets, signals, shutdown flags, locks and child processes of os_unix.c: they are the operating system.
- os_win32.c: handles and completion ports, mostly foreign calls.
- fcgi_stdio.c and fcgio.cpp: wrappers that choose between stdio or std::streambuf and the functions modelled here.
- geoip_server.cc, geoip_client.cc and src/Altumo: applications and plumbing on other libraries.
