# xs4go client core in Dafny

This project models the client side of xs4go, a Go client for the xunsearch
full-text search server, and proves properties of the model. The client talks
to two servers, an index server and a search server, in 8-byte-header command
frames (`XsCommand`). This model covers:

- the frame codec, with `Pack`/`UnPack` and the small command builders;
- the field and schema model, with field flags, wire numbers (vno), the term
  and index accumulators of a document, the 20-byte result header and the
  configuration check;
- the connection. High-bit commands are buffered. Any other command flushes
  the buffer, then one reply is read and checked;
- the indexer: the frames of add/update/delete/synonyms, the client-side
  batching buffer, and the rebuild commands;
- the searcher: query normalisation (`preQueryString`), the prefix cache,
  paging and count caching, decoding of the streamed result, the search-log
  heuristic (`logQuery`), `cleanFieldQuery`, database selection and restore,
  and the corrected, expanded, hot and related queries;
- the default tokenizer (split on one space). The indexer and the searcher
  install it.

All Go strings are `seq<byte>` (`Types.Bytes`). The socket is replaced by a
connection state (`Connections.ConnState`) made of:

- an input byte stream standing in for the reader;
- an output log, one entry per `conn.Write`;
- the write-coalescing buffer;
- an `open` flag and a `broken` flag (a write that fails).

Objects whose fields the Go code updates in place are classes:

- `Command.XsCommand`;
- `Schemas.Schema`;
- `Configs.Config`;
- `Connections.Connection`;
- `Indexers.Indexer`;
- `Searchers.Searcher`.

Each method of these classes is proved to leave the state and return the
value that a pure specification function gives (`...Spec`). The properties
are lemmas about those functions.

Modules, in dependency order:

- **Types**: bytes, frames, errors, results.
- **GoStrings**: the `strings` and `strconv` functions the source calls.
- **Codes**: protocol constants.
- **Command**: cmd/cmd.go and the two command-builder files.
- **Fields**: schema/field.go.
- **Schemas**: schema/schema.go.
- **Logger**: schema/logger.go.
- **Documents**: schema/document.go.
- **Configs**: schema/config.go.
- **Connections**: server/connection.go.
- **Tokenizer** and **RootTokenizer**: the two tokenizers.
- **Indexers**: indexer.go, with its lemmas in **IndexerProps**.
- **Queries**: query.go.
- **SearchText**, **CleanQueries** and **SearchSpecs**: the search specifications.
- **Searchers**: searcher.go, the class.
- **SearchProps**: the searcher's lemmas.

## Model

| member | source | states |
|---|---|---|
| Command.Uint32RoundTrip | cmd/cmd.go:87-94 | the four length bytes Encode writes, in either byte order, read back as the length written |
| Command.ReadUint32RoundTrip | cmd/cmd.go:117-123 | any four header bytes are the encoding of the length Decode reads from them |
| Command.WithArg | cmd/cmd.go:53-64 | SetArg makes GetArg return exactly the value set, and leaves cmd and both payloads alone |
| Command.GetArg | cmd/cmd.go:53-58 | the 16-bit argument with Arg1 as its high byte and Arg2 as its low byte |
| Command.WithOwnArg | cmd/cmd.go:53-64 | setting the argument a frame already carries leaves it unchanged |
| Command.NewCommand | cmd/cmd.go:23-34 | cmd and the 16-bit argument as given; Buf is the first optional string and Buf1 the second, each empty when absent |
| Command.NewCommand2 | cmd/cmd.go:37-50 | cmd, Arg1 and Arg2 as given, and the optional strings fill Buf then Buf1 |
| Command.NewCommandSplitsArg | cmd/cmd.go:23-50 | NewCommand with arg is NewCommand2 with the high and low bytes of arg |
| Command.UseProjectWithHomeCmd | cmd/use_project_cmd.go:4-12 | an XS_CMD_USE frame with zero arguments, Buf the project, and Buf1 the home directory (empty when none is given) |
| Command.UseProjectCmd | cmd/use_project_cmd.go:15-17 | the USE frame with Buf the project and everything else zero or empty, as NewCommand builds it |
| Command.IndexSetDbCmd | cmd/index_set_db_cmd.go:4-9 | an XS_CMD_INDEX_SET_DB frame with zero arguments, Buf the database name and an empty Buf1 |
| Command.MaxLimit | cmd/cmd.go:244-254 | 10 with no argument, 20 when the first argument exceeds 20, the first argument (0 included) otherwise |
| Command.Truncated | cmd/cmd.go:74-78 | Buf1 as sent is its first 255 bytes, and unchanged when it is no longer than that |
| Command.EncodeFrame | cmd/cmd.go:73-104 | the encoding is 8 + len(Buf) + min(len(Buf1), 255) bytes: Cmd, Arg1, Arg2 and the Buf1 length, then len(Buf) modulo 2^32 in the chosen byte order, then Buf, then the cut Buf1 |
| Command.Copy | cmd/cmd.go:95-103 | Go's copy into dst[at:]: as much of src as fits is written there and nothing else changes |
| Command.EncodeLayout | cmd/cmd.go:81-104 | the header bytes followed by the three copies give exactly the frame's encoding |
| Command.XsCommand.SetArg | cmd/cmd.go:61-64 | the receiver's Arg1 and Arg2 become the high and low bytes of the argument |
| Command.XsCommand.Encode | cmd/cmd.go:73-104 | a fresh array holding the frame's encoding, with the receiver's Buf1 cut to 255 bytes in place |
| Command.XsCommand.Decode | cmd/cmd.go:108-138 | the receiver and the error are those DecodeInto gives for the old receiver |
| Command.DecodeInto | cmd/cmd.go:108-138 | fewer than 8 bytes fail and change nothing; otherwise Cmd, Arg1 and Arg2 are taken from the header before the length check, which fails exactly when the declared Buf length exceeds the data and then leaves both payloads; on success Buf becomes the declared bytes only when the length is non-zero, and Buf1 the whole rest only when byte 3 is non-zero |
| Command.DecodeFrame | cmd/cmd.go:108-138 | decoding into a fresh frame fails exactly when Decode reports an error |
| Command.DecodeEncode | cmd/cmd.go:73-138 | decoding what Encode produced, in the same byte order, gives back the frame with Buf1 cut to 255 bytes |
| Command.DecodeHead | cmd/cmd.go:141-153 | fails with "invalid response data" exactly on fewer than 8 bytes |
| Command.DecodeHeadEncode | cmd/cmd.go:141-153 | the head of a little-endian encoding announces exactly len(Buf) and the length of the cut Buf1 |
| Command.PackOne | cmd/cmd.go:166-177 | 'I' writes four bytes that read back little-endian as the uint32, 'C' the one byte, 'n' two bytes that read back big-endian as the uint16, any other code nothing; it fails exactly when the argument is not of the type its code asserts, and then with the type-assertion panic |
| Command.PackSpec | cmd/cmd.go:156-180 | a format and an argument list of different lengths fail first; otherwise the arguments are taken in order, each adding the bytes PackOne gives, and the first one that is not an integer fails with its index, or the first that fails its code's type assertion panics |
| Command.Pack | cmd/cmd.go:156-180 | the result PackSpec gives: an error on a format and argument count that differ or a non-integer argument, else the bytes of each argument in turn |
| Command.PackTwoWords | cmd/cmd.go:156-180 | Pack("II", offset, limit) is the two values, each as four little-endian bytes |
| Command.UnPack | cmd/cmd.go:183-227 | the map and the error UnPackSpec gives for the '/'-separated segments |
| Command.UnPackSpec | cmd/cmd.go:183-227 | the '/'-separated segments read from the data in order, each named by its text after the code or else by its position, stopping at the first short read with the values read so far |
| Command.UnPackErrorExactlyShort | cmd/cmd.go:188-226 | UnPack fails exactly when the data is shorter than the sum of its segments' widths, and it keeps every value already read |
| Command.Groups | cmd/cmd.go:234-237 | one text per span of a match, each the slice of the subject that span covers |
| Command.ReplaceFrom | cmd/cmd.go:233-241 | from match k on, the text between matches copied, each match replaced by repl of its groups, then the rest of the subject |
| Command.ReplaceAllStringSubmatchFunc | cmd/cmd.go:230-242 | the result ReplaceFrom gives: the text between matches copied, each match replaced by repl of its groups |
| Command.ReplaceWithWholeMatch | cmd/cmd.go:230-242 | a callback that returns each match's whole text leaves the subject unchanged |
| Fields.IndexMode | schema/field.go:85 | a named index mode is a nonzero value within the two index bits |
| Fields.HasIndexEither | schema/field.go:49-59 | HasIndex holds exactly when HasIndexSelf or HasIndexMixed holds |
| Fields.TypeDefaults | schema/field.go:67-81 | the type switch touches only flag, weight, cutlen and vno |
| Fields.ApplyIndex | schema/field.go:83-94 | the index rule changes only the two index bits of the flag |
| Fields.ApplyWeight | schema/field.go:96-102 | the weight rule changes only the weight |
| Fields.ApplyPhrase | schema/field.go:104-118 | the phrase switch changes only the flag |
| Fields.ApplyNoBool | schema/field.go:120-134 | the no_bool switch changes only the flag |
| Fields.NewField | schema/field.go:23-27 | newField keeps the name, type and fid of the declaration |
| Fields.LaterRulesKeepIndexBits | schema/field.go:96-134 | the weight, phrase and no_bool rules leave the two index bits alone |
| Fields.NewFieldIndexBits | schema/field.go:67-94 | body: self index; another type with a named mode: that mode, plus the self bit for id; with no mode, the type's default (id self, title both, others none). An id field always has a self index |
| Fields.NewFieldWeight | schema/field.go:96-102 | title weighs 5, a zero weight becomes 1, and a body weight is then masked with 0x3f |
| Fields.BodyWeightCanBeZero | schema/field.go:96-102 | a body field declared with weight 64 ends with weight 0 |
| Fields.NewFieldBody | schema/field.go:75-79 | only a body field has its cut length forced to 300 and its vno to 255 |
| Fields.NewFieldPhrase | schema/field.go:104-118 | "Y" sets WITH_POSITION and "N" clears it; any other value ("yes", "y", "no" included) keeps the title and body default |
| Fields.NewFieldNoBool | schema/field.go:120-134 | NON_BOOL ends set exactly when no_bool is "Y" |
| Fields.NewFieldBoolIndex | schema/field.go:120-134 | a field is boolean-indexed exactly when it is of type id and no_bool is not "Y" |
| Schemas.LexIrreflexive | schema/schema.go:37 | no name sorts before itself under the byte order sort.Strings uses |
| Schemas.LexTransitive | schema/schema.go:37 | the byte order is transitive |
| Schemas.LexTotal | schema/schema.go:37 | of two distinct names, one sorts before the other |
| Schemas.CountLess | schema/schema.go:32-41 | a name's sorted index is at most the number of names |
| Schemas.CountLessMonotone | schema/schema.go:37-41 | a name sorting after another has a larger index, by one more when the smaller name is among the names |
| Schemas.SortedIndexesDistinct | schema/schema.go:37-41 | distinct names get distinct sorted indexes |
| Schemas.CountLessSplit | schema/schema.go:37-41 | the names sorting before a name, counted over two lists joined, are the counts of the two lists added |
| Schemas.TakeOut | schema/schema.go:43 | taking one copy of the same field out of two reorderings of each other leaves two reorderings |
| Schemas.CountLessTakeOut | schema/schema.go:37-41 | a field's sorted index counts one entry's name and then the names of the others |
| Schemas.SortedIndexUnordered | schema/schema.go:32-43 | a name's sorted index is the same for every order in which the map range yields the fields |
| Schemas.SortedIndexBound | schema/schema.go:37-41 | the index of a present name is below the number of names |
| Schemas.Names | schema/schema.go:32-36 | the keys of the field map, one per field, in iteration order |
| Schemas.VnoOf | schema/schema.go:70-76 | 255 for body, Fid - 1 when Fid is set, otherwise the sorted index cut to a uint8 |
| Schemas.Made | schema/schema.go:44 | newField of each declaration, in iteration order |
| Schemas.MetaOf | schema/schema.go:70-76 | newField's metadata with its wire number set |
| Schemas.Kept | schema/schema.go:45-77 | storing a field fails only with a duplicate id, title or body field |
| Schemas.SchemaStep | schema/schema.go:44-77 | one iteration fails only with a duplicate field |
| Schemas.SchemaFrom | schema/schema.go:43-83 | the loop from field i on, stopping at the first duplicate id, title or body and then failing with MissingIdField when no id was stored |
| Schemas.SchemaFromOk | schema/schema.go:43-83 | the rest of the loop succeeds exactly when, together with the slots already filled, there is one id field and at most one title and one body field; with no id field it reports the missing id |
| Schemas.SchemaSpec | schema/schema.go:23-84 | newSchema: the loop over the fields in range order from an empty schema, with every name's sorted index computed first |
| Schemas.SchemaOk | schema/schema.go:23-84 | newSchema succeeds exactly when there is one field of type id and at most one title and one body field; otherwise the error is a duplicate or the missing id field |
| Schemas.StepShape | schema/schema.go:45-77 | a successful step stores the numbered field under its name and its vno, and sets Id and StrId only for the id field |
| Schemas.VnoMapStep | schema/schema.go:77 | vnoMap keeps mapping each number to a field carrying it when a new field is stored |
| Schemas.SchemaFromBuilds | schema/schema.go:43-83 | a successful loop has stored every field and found the id field |
| Schemas.SchemaContents | schema/schema.go:23-84 | a built schema holds exactly the declared names, each with newField's metadata and its wire number; StrId names the id field; vnoMap maps each number to a field carrying it |
| Schemas.SchemaVnos | schema/schema.go:70-76 | each stored field carries the number VnoOf gives |
| Schemas.VnoMapInverse | schema/schema.go:77 | when the wire numbers are distinct, vnoMap is exactly the inverse of the name-to-vno map |
| Schemas.TermsAdded | schema/schema.go:87-102 | only the named field's term map changes; a zero weight counts as 1 and a repeated term's weights add up modulo 256 |
| Schemas.IndexAdded | schema/schema.go:105-116 | an empty index changes nothing; otherwise only the named field changes, to the index or to the old text, a newline and the index |
| Schemas.AddTermTwice | schema/schema.go:87-102 | a term added twice with the same weight weighs twice that, modulo 256 |
| Schemas.AddIndexTwice | schema/schema.go:105-116 | two indexes added to a fresh field are kept one per line |
| Schemas.Schema.constructor | schema/schema.go:24-28 | an empty schema with no terms and no indexes |
| Schemas.Schema.AddTerm | schema/schema.go:87-102 | the terms become TermsAdded of the old terms; nothing else changes |
| Schemas.Schema.AddIndex | schema/schema.go:105-116 | the indexes become IndexAdded of the old indexes; nothing else changes |
| Schemas.Schema.GetTerms | schema/schema.go:119-125 | the field's term map exactly when it has one, nil otherwise |
| Schemas.Schema.GetIndex | schema/schema.go:128-131 | the field's index text and true when it has one, "" and false otherwise |
| Schemas.Schema.Store | schema/schema.go:45-77 | the schema and error Kept gives; the terms and indexes stay |
| Schemas.Schema.StoreFields | schema/schema.go:43-78 | the loop stores the fields in order and stops at the first error, as SchemaFrom does |
| Schemas.SortedIndexes | schema/schema.go:37-41 | nvoMap maps each name to its sorted index cut to a uint8 |
| Schemas.Keys | schema/schema.go:32-36 | the names of the fields in iteration order |
| Schemas.Numbered | schema/schema.go:70-76 | the wire number VnoOf gives |
| Schemas.StoreStep | schema/schema.go:43-78 | one pass keeps the remaining fold equal to the specification |
| Schemas.NewSchema | schema/schema.go:23-84 | a fresh schema holding SchemaSpec's data and no terms or indexes, or nil and SchemaSpec's error |
| Logger.Declared | schema/logger.go:6-29 | a decoded table entry giving only type, index and fid, every other key being absent |
| Logger.LoggerNamesDistinct | schema/logger.go:3-30 | the search-log schema declares eight distinct fields: id, pinyin, partial, total, lastnum, currnum, currtag and body |
| Logger.LoggerSchemaOk | schema/logger.go:3-30 | the search-log schema, as written and corrected, is a valid schema |
| Logger.LoggerCounts | schema/logger.go:6-29 | it has one id field, no title field and one body field |
| Logger.LiteralTypes | schema/logger.go:6-29 | in the literal, only id has type id, only body has type body, and no field has type title |
| Logger.LiteralOnce | schema/logger.go:6-29 | the id and body fields each occur once in the literal, its fids being distinct |
| Logger.LoggerAnyOrderOk | schema/schema.go:43-83 | in every order the range over the decoded logger literal can take, newSchema succeeds |
| Logger.SortedPositions | schema/logger.go:9-10 | pinyin has sorted index 6 among the eight names |
| Logger.LoggerVnoCollision | schema/logger.go:9-26 | as written (nid in place of fid), pinyin gets wire number 6, the number currtag's fid 7 also gives |
| Logger.LiteralEntriesOnce | schema/logger.go:6-29 | every table of the literal occurs once, its fids being distinct |
| Logger.LiteralByName | schema/logger.go:6-29 | two tables of the literal with the same name are the same table |
| Logger.TwiceCounted | schema/schema.go:43 | an entry at two positions is counted at least twice |
| Logger.AnyOrderDistinct | schema/schema.go:43 | every order the range can take over the decoded literal has distinct names |
| Logger.LiteralVnoSix | schema/logger.go:9-26 | with pinyin sorted sixth, exactly pinyin and currtag get wire number 6 |
| Logger.AnyOrderPinyinIndex | schema/schema.go:32-43 | pinyin's sorted index is 6 in every order the range can take |
| Logger.EntryOf | schema/schema.go:43 | every table of the literal is reached by the range |
| Logger.AnyOrderVnos | schema/schema.go:70-76 | numbered in any order, pinyin and currtag both carry wire number 6 |
| Logger.NamedEntry | schema/schema.go:43 | every stored name is the name of one table of the literal |
| Logger.AnyOrderSixNamed | schema/schema.go:77 | numbered in any order, the field vnoMap keeps under 6 is pinyin or currtag |
| Logger.LoggerVnoCollisionAnyOrder | schema/config.go:71 | in every order the range over the logger literal takes, pinyin and currtag both get vno 6 and vnoMap[6] names one of them, so a vno-6 FIELD frame from log_db is named either way |
| Logger.LoggerVnos | schema/logger.go:6-29 | with fid = 2 for pinyin, id to body get wire numbers 0 to 6 and 255 |
| Logger.LoggerVnoMapInverse | schema/logger.go:6-29 | with the correction every log field has its own number, and vnoMap is exactly their inverse |
| Documents.DocResFormat | schema/document.go:8 | the format splits into the five segments docid, rank, ccount, percent and weight, and is one UnPack accepts |
| Documents.AsUint32 | schema/document.go:34-36 | the assertion succeeds exactly on a uint32 entry and gives its value; a missing or other entry panics |
| Documents.AsInt32 | schema/document.go:37 | the assertion succeeds exactly on an int32 entry and gives its value, else it panics |
| Documents.AsFloat32 | schema/document.go:38 | the assertion succeeds exactly on a float32 entry and gives its four bytes, else it panics |
| Documents.NewDocument | schema/document.go:24-29 | metadata of any length other than 20 becomes the charset of an otherwise blank document |
| Documents.FormatSegments | schema/document.go:30 | unpacking by DocResFormat is unpacking its five segments |
| Documents.Int32Of | schema/document.go:37 | an int32 whose two's complement is the four bytes read little-endian |
| Documents.DocResUnpacked | schema/document.go:30-33 | 20 bytes of metadata always unpack, so the error branch is never taken |
| Documents.NewDocumentReads | schema/document.go:24-40 | 20 bytes of metadata never fail: docid, rank and ccount are the little-endian words at 0, 4 and 8, percent the signed word at 12, and the weight the last four bytes |
| Documents.NewDocumentRoundTrip | schema/document.go:24-40 | packing five values in the server's layout and reading them with NewDocument gives them back |
| Configs.NormalAddress | schema/config.go:41-56 | an empty address takes its default; one starting with ':' gets 127.0.0.1 in front; a bare port of two to five digits gets 127.0.0.1: in front; anything else stays |
| Configs.StartsWithColon | schema/config.go:47-52 | strings.Index(a, ":") == 0 exactly when a starts with ':' |
| Configs.LocalhostPrefixed | schema/config.go:48-57 | an address with the local host in front neither starts with ':' nor is a bare port |
| Configs.NormalAddressShape | schema/config.go:41-56 | a normalised address is non-empty, does not start with ':' and is not a bare port |
| Configs.NormalAddressIdempotent | schema/config.go:41-56 | normalising an address twice is normalising it once |
| Configs.NormalServersAsWritten | schema/config.go:41-58 | as written, a bare search port rewrites IndexServer and leaves SearchServer a bare port |
| Configs.NormalServers | schema/config.go:41-58 | with the search rule writing SearchServer, both addresses end as host:port forms |
| Configs.SearchPortOverwritesIndex | schema/config.go:56-58 | an empty index server and search port 8384 give, as written, both addresses to port 8384; corrected, the two defaults |
| Configs.AsWrittenAgrees | schema/config.go:41-58 | whenever the search server is not a bare port, the code as written and the correction agree |
| Configs.Config.constructor | schema/config.go:12-17 | a configuration holding the name, the two addresses and the fields as given |
| Configs.Config.NormalizeServers | schema/config.go:40-58 | the addresses become NormalServersAsWritten of the old ones, a bare search port landing in indexServer; name and fields stay |
| Configs.Config.CheckValid | schema/config.go:35-77 | an empty name fails before anything changes; otherwise the addresses are normalised as written (NormalServersAsWritten), then the project schema's error, then the error of the log schema built from the logger literal as written in the order the map range takes (`logFields`, any order of its fields), or a setting holding both schemas and this configuration |
| Connections.Connected | server/connection.go:26-48 | a new connection is open, little-endian, with an empty buffer and nothing written |
| Connections.ReadSpec | server/connection.go:144-163 | a read into an n-byte slice takes the first n bytes of the stream, or all of them when fewer are left, and changes nothing else |
| Connections.ReadPayload | server/connection.go:153-168 | a zero length reads nothing; otherwise one read of that many bytes |
| Connections.ReadPrefix | server/connection.go:153-168 | reading the length of the bytes at the front of the stream gives exactly those bytes |
| Connections.ResponseSpec | server/connection.go:140-178 | getResponse only consumes input, and a frame it returns took at least the 8 header bytes |
| Connections.CheckReply | server/connection.go:93-103 | a read error is passed on; an ERR reply, when ERR was not asked for, fails with the server's message; otherwise the reply is returned exactly when its command is resCmd and, unless resArg is XS_CMD_NONE, its argument is resArg |
| Connections.ExecSpec | server/connection.go:75-106 | Exec never opens, closes or breaks the connection, nor changes its byte order |
| Connections.ExecOKSpec | server/connection.go:109-111 | Exec with XS_CMD_OK as the reply command expected and the caller's reply argument |
| Connections.SearchResponseSpec | server/connection.go:133-138 | a previous frame without XS_CMD_OK_RESULT_BEGIN fails and consumes nothing; otherwise one response is read and nothing is written |
| Connections.TimeoutFrame | server/connection.go:53-55 | an XS_CMD_TIMEOUT frame carrying the timeout as its argument |
| Connections.TimeoutSpec | server/connection.go:51-63 | without a socket SetTimeout fails and changes nothing |
| Connections.CloseSpec | server/connection.go:66-72 | Close only drops the socket |
| Connections.Frames | server/connection.go:109-111 | the frames of a list of calls, in order |
| Connections.DeferredIsHighBit | server/connection.go:84 | a command is buffered exactly when its byte is at least 0x80 |
| Connections.DeferredCommands | server/connection.go:84 | the document, query and search-setting commands are buffered; USE, INDEX_SUBMIT, INDEX_EXDATA, SEARCH_GET_RESULT, TIMEOUT, INDEX_SET_DB and SEARCH_ADD_LOG are sent at once |
| Connections.ClosedConnection | server/connection.go:51-72 | after Close, Exec and SetTimeout fail without changing anything, and closing again changes nothing |
| Connections.ExecDeferred | server/connection.go:79-86 | a buffered command is only appended, encoded, to the buffer, and Exec answers an empty frame |
| Connections.ExecFlushes | server/connection.go:87-92 | any other command writes the old buffer and its frame in one write and empties the buffer, even when the write fails |
| Connections.ReadEncodedReply | server/connection.go:140-178 | a reply sent as one little-endian encoded frame is read back whole, and nothing after it |
| Connections.ExecRoundTrip | server/connection.go:75-104 | a full exchange writes the buffered frames and the command and returns the matching reply as it was sent |
| Connections.RunCallsAppend | server/connection.go:109-111 | running two lists of calls in turn is running their concatenation |
| Connections.RunCalls | indexer.go:290-296 | the calls made with ExecOK in order, stopping at the first failure with its error; no error once every call is accepted |
| Connections.RunDeferredStep | server/connection.go:84-86 | a buffered first call only grows the buffer before the rest run |
| Connections.RunDeferred | server/connection.go:84-86 | calls that are all buffered leave their encodings appended to the buffer, in order, with nothing written |
| Connections.Connection.constructor | server/connection.go:26-48 | the state Connected gives over the given input |
| Connections.Connection.Read | server/connection.go:144 | the new state and bytes ReadSpec gives |
| Connections.Connection.GetResponse | server/connection.go:140-178 | the new state and result ResponseSpec gives |
| Connections.Connection.Exec | server/connection.go:75-106 | the new state and result ExecSpec gives |
| Connections.Connection.ExecOK | server/connection.go:109-111 | Exec with XS_CMD_OK as the expected reply |
| Connections.Connection.GetSearchResponse | server/connection.go:133-138 | the new state and result SearchResponseSpec gives |
| Connections.Connection.SetTimeout | server/connection.go:51-63 | the new state and error TimeoutSpec gives |
| Connections.Connection.Close | server/connection.go:66-72 | the state CloseSpec gives |
| Connections.Connection.Run | server/connection.go:109-111 | ExecOK of each call in turn, stopping at the first failure, as RunCalls gives |
| Tokenizer.GetTokens | tokenizer/tokenizer.go:16-18 | at least one token, none containing a space |
| Tokenizer.JoinTokens | tokenizer/tokenizer.go:16-18 | joining the tokens with single spaces gives the text back |
| Tokenizer.TokenCount | tokenizer/tokenizer.go:16-18 | one token more than the text has spaces, and the empty text gives one empty token |
| Tokenizer.TokensOfJoin | tokenizer/tokenizer.go:16-18 | tokenizing space-free words joined by single spaces gives the words back |
| RootTokenizer.GetTokens | tokenizer.go:15-17 | at least one token, none containing a space |
| RootTokenizer.JoinTokens | tokenizer.go:15-17 | joining the tokens with single spaces gives the text back |
| RootTokenizer.SameAsPackageTokenizer | tokenizer.go:15-17 | the two default tokenizers agree on every text |
| Indexers.ErrorOf | indexer.go:65-66 | an ExecOK's error is nil exactly when the reply was accepted |
| Indexers.CallsOf | indexer.go:290-296 | every frame is sent with the same expected reply argument, in order |
| Indexers.TermFrames | indexer.go:320-326 | at most one DOC_TERM frame per token, each with the given wdf and vno and a term of at most 200 bytes |
| Indexers.FieldParts | indexer.go:284-289 | the frames buildCmd adds for each field, in the iteration order given |
| Indexers.BuildFrames | indexer.go:304-339 | nothing for an absent or empty value; otherwise the self-index DOC_TERM frames and the mixed-index DOC_INDEX frame the field's index mode calls for, then the DOC_VALUE frame |
| Indexers.DocumentFrames | indexer.go:269-289 | the INDEX_REQUEST frame, the id field's frames, then every other field's frames in range order |
| Indexers.UpdateCalls | indexer.go:290-300 | each document frame expecting any OK reply, then SUBMIT expecting RQST_FINISHED |
| Indexers.UpdateSpec | indexer.go:261-302 | update changes only the connection; without an id field it is a nil dereference; a missing or empty primary key fails before anything is sent |
| Indexers.RemoveFrames | indexer.go:117-120 | one INDEX_REMOVE frame per term, in order |
| Indexers.DelFrame | indexer.go:101-123 | DelByField fails exactly when the field (the id field when none is named) is not defined |
| Indexers.DelSpec | indexer.go:101-126 | an undefined field fails before anything is sent; only the connection changes |
| Indexers.FlushSpec | indexer.go:359-371 | flushBuffer changes only the connection and the buffer; no buffer or an empty one means nothing happens; an open buffer ends empty |
| Indexers.BufferExecSpec | indexer.go:341-357 | bufferExec changes only the connection and the buffer, and never opens or closes the buffer |
| Indexers.AppendSpec | indexer.go:342-352 | the buffered branch changes only the connection and the buffer, and leaves the buffer open |
| Indexers.Reopened | indexer.go:183-190 | a positive size opens an empty buffer and 0 closes it |
| Indexers.OpenBufferSpec | indexer.go:167-191 | OpenBuffer changes only the connection, the buffer and its size; without a buffer it reopens with the size clamped to 32 and sends nothing |
| Indexers.SynonymFrame | indexer.go:137-158 | an INDEX_SYNONYMS frame with the operation in Arg1, the word in Buf and the synonym in Buf1 |
| Indexers.AddSynonymSpec | indexer.go:129-132 | nothing happens for an empty word or no synonyms |
| Indexers.DelSynonymSpec | indexer.go:146-153 | nothing happens for an empty word; with no synonyms, one DEL frame for the whole word goes through bufferExec |
| Indexers.NonEmpty | indexer.go:133-157 | the synonyms that are not skipped are all non-empty |
| Indexers.SynonymCalls | indexer.go:133-162 | one synonyms frame per synonym, each expecting RQST_FINISHED |
| Indexers.SynonymsFrom | indexer.go:133-142 | empty synonyms are skipped; each other one is a bufferExec of INDEX_SYNONYMS expecting RQST_FINISHED, stopping at the first error |
| Indexers.RebuildFrame | indexer.go:209-229 | an INDEX_REBUILD frame with the operation in Arg1 and nothing else |
| Indexers.SetDbFrame | indexer.go:61-63 | the frame SetDB fills in is the frame IndexSetDbCmd builds |
| Indexers.Exchange | indexer.go:60-81 | one ExecOK changes only the connection |
| Indexers.Indexer.constructor | indexer.go:28-41 | an indexer over the connection and schema, with no buffer, not rebuilding, and the default tokenizer |
| Indexers.Indexer.SetTokenizer | indexer.go:53-57 | a nil tokenizer keeps the current one; nothing else changes |
| Indexers.Indexer.SetProject | indexer.go:245-259 | USE of the project; on failure the connection is closed and dropped, on success the default tokenizer is installed |
| Indexers.Indexer.SetDB | indexer.go:60-67 | one ExecOK of the INDEX_SET_DB frame expecting DB_CHANGED |
| Indexers.Indexer.Put | indexer.go:261-302 | the new state and error UpdateSpec gives |
| Indexers.Indexer.FlushLogging | indexer.go:70-75 | one ExecOK of FLUSH_LOGGING expecting LOG_FLUSHED |
| Indexers.Indexer.FlushIndex | indexer.go:78-83 | one ExecOK of INDEX_COMMIT expecting DB_COMMITED |
| Indexers.Indexer.Clean | indexer.go:199-203 | one ExecOK of INDEX_CLEAN_DB expecting DB_CLEAN |
| Indexers.Indexer.Add | indexer.go:86-88 | update with an ADD request |
| Indexers.Indexer.Update | indexer.go:91-93 | update with an UPDATE request |
| Indexers.Indexer.DelByField | indexer.go:101-126 | the new state and error DelSpec gives |
| Indexers.Indexer.Del | indexer.go:96-98 | DelByField of the id field |
| Indexers.Indexer.FlushBuffer | indexer.go:359-371 | the new state and error FlushSpec gives |
| Indexers.Indexer.BufferExec | indexer.go:341-357 | the new state and error BufferExecSpec gives |
| Indexers.Indexer.AppendEncoded | indexer.go:342-352 | the new state and error AppendSpec gives |
| Indexers.Indexer.OpenBuffer | indexer.go:167-191 | the new state and error OpenBufferSpec gives |
| Indexers.Indexer.Submit | indexer.go:194-196 | OpenBuffer(0) |
| Indexers.Indexer.Synonyms | indexer.go:133-163 | bufferExec of each non-empty synonym in turn, stopping at the first error |
| Indexers.Indexer.AddSynonym | indexer.go:129-143 | the new state and error AddSynonymSpec gives |
| Indexers.Indexer.DelSynonym | indexer.go:146-164 | the new state and error DelSynonymSpec gives |
| Indexers.Indexer.BeginRebuild | indexer.go:209-216 | REBUILD with Arg1 0; only a success marks the indexer as rebuilding |
| Indexers.Indexer.EndRebuild | indexer.go:220-224 | REBUILD with Arg1 1; the rebuilding flag is left as it was |
| Indexers.Indexer.StopRebuild | indexer.go:228-232 | REBUILD with Arg1 2; the rebuilding flag is left as it was |
| Indexers.Indexer.Close | indexer.go:235-243 | an open buffer is flushed, its outcome ignored, then the connection is closed and dropped; without a connection nothing happens |
| Indexers.NewIndexer | indexer.go:27-45 | SetTimeout(0), its error ignored, then setProject: the indexer, or nil and USE's error with the connection closed |
| Indexers.BuildCmd | indexer.go:304-339 | cmds followed by the frames of the field that BuildFrames gives |
| Indexers.DocumentCmds | indexer.go:269-289 | the request frame, the id field's frames, then every other field's, in the given order |
| Indexers.FieldCmds | indexer.go:284-289 | cmds followed by the frames of each field in order |
| Indexers.FieldCmd | indexer.go:285-288 | nothing for a field of type id, buildCmd's frames for any other |
| Indexers.IndexFrames | indexer.go:313-333 | cmds followed by the self-index frames, then the mixed-index frame |
| Indexers.UpdateSplits | indexer.go:290-301 | after the key checks, update runs the document's calls and sends SUBMIT only when they all succeeded |
| Indexers.RunThenSubmit | indexer.go:290-301 | running calls then SUBMIT sends SUBMIT only when every call succeeded |
| Indexers.AppendTerms | indexer.go:320-326 | cmds followed by the DOC_TERM frames of the tokens of at most 200 bytes, lowercased |
| Indexers.EncodeRemovals | indexer.go:116-121 | the little-endian encodings of one REMOVE per term, in order |
| Indexers.EncodingsAppend | indexer.go:116-121 | encoding one more frame appends its encoding |
| IndexerProps.SentAll | indexer.go:119 | each frame as Encode leaves it, with Buf1 cut to 255 bytes |
| IndexerProps.UnbatchOne | indexer.go:116-121 | a frame encoded at the front of a batch is read back as sent, followed by the rest |
| IndexerProps.UnbatchEncodings | indexer.go:352-363 | a batch of little-endian encodings reads back as its frames, in order |
| IndexerProps.SentWithoutBuf1 | indexer.go:114-122 | frames without Buf1 are read back unchanged |
| IndexerProps.DelOneTerm | indexer.go:113-114 | deleting one term sends one INDEX_REMOVE of the lowercased term for the field's number |
| IndexerProps.DelBatchUnbatches | indexer.go:115-123 | deleting any other number of terms sends one EXDATA whose payload reads back as one INDEX_REMOVE per lowercased term, in order |
| IndexerProps.ShortTerms | indexer.go:320-323 | the tokens kept are at most as many as the tokens |
| IndexerProps.TermFramesOfShort | indexer.go:320-326 | TermFrames is one DOC_TERM frame per short token, in the tokens' order |
| IndexerProps.ShortTermsMembers | indexer.go:321-323 | exactly the tokens of at most 200 bytes are kept |
| IndexerProps.TermFramesExactly | indexer.go:320-326 | a token gets a DOC_TERM frame exactly when it is at most 200 bytes long, and every DOC_TERM frame comes from such a token |
| IndexerProps.TermFramesDoc | indexer.go:325 | every frame TermFrames gives is a document frame |
| IndexerProps.BuildFramesShape | indexer.go:304-339 | buildCmd adds nothing for a missing or empty value; otherwise it adds document frames ending with the DOC_VALUE of the value |
| IndexerProps.ConcatDoc | indexer.go:284-289 | joining lists of document frames gives document frames |
| IndexerProps.DocumentFramesDoc | indexer.go:269-289 | apart from the first frame, the request, every frame update sends before SUBMIT is a document frame |
| IndexerProps.DocumentFramesDeferred | indexer.go:290-296 | the server answers none of the frames update sends before SUBMIT |
| IndexerProps.UpdateWritesOnce | indexer.go:261-302 | when the next reply is OK / RQST_FINISHED, update buffers every frame and writes them with SUBMIT in one write, consuming that reply alone |
| IndexerProps.SubmitWritesAll | indexer.go:290-301 | buffered calls followed by SUBMIT make exactly one write of everything |
| IndexerProps.SubmitAnswered | indexer.go:298-300 | SUBMIT is never buffered: it is written with the buffer and its reply is read |
| IndexerProps.OpenBufferReopens | indexer.go:167-191 | an open buffer is flushed, and dropped when the flush fails; otherwise the buffer reopens for a positive size or closes for 0 |
| IndexerProps.SubmitUnbuffers | indexer.go:194-196 | Submit ships what is buffered and always leaves the indexer unbuffered |
| IndexerProps.BufferExecBatches | indexer.go:341-357 | with a buffer holding the encodings of some frames, either the new frame's encoding is appended, or the old ones are shipped as one EXDATA and the buffer then holds the new frame alone |
| IndexerProps.BufferExecBound | indexer.go:341-357 | the buffer never grows past its 30-byte capacity, except to hold a single frame that is larger on its own |
| IndexerProps.FlushShips | indexer.go:359-371 | flushing writes the pending frames and one EXDATA carrying the buffer, and empties the buffer |
| IndexerProps.SynonymsUnbuffered | indexer.go:129-164 | without a buffer, AddSynonym and DelSynonym make one ExecOK per non-empty synonym, in order, and stop at the first error |
| Queries.Spaced | query.go:25-26 | the same length, with each tab, line feed and carriage return made a space and every other byte kept |
| Queries.Parts | query.go:23-29 | at least one part, none holding a space, tab or line break |
| Queries.Atom | query.go:30 | one atom of the class takes one or two bytes of the pattern |
| Queries.PatternRanges | query.go:30 | the class, read atom by atom, is '\\', 'x', '8', the range '1' to '\\', then 'x', 'f' and 'e' |
| Queries.PatternBody | query.go:30 | between the brackets: an escaped '\\', 'x', '8', then "1-\\\\xfe" |
| Queries.RangeHead | query.go:30 | the first three atoms of the class body are single bytes |
| Queries.RangeTail | query.go:30 | "1-\\\\xfe" is the range '1' to '\\' followed by 'x', 'f' and 'e' |
| Queries.PlainAtom | query.go:30 | a plain byte not followed by '-' is a one-byte range |
| Queries.EscapedAtom | query.go:30 | an escaped byte not followed by '-' is a one-byte range |
| Queries.RangeOfAtoms | query.go:30 | a plain byte, '-' and an escaped byte make one range |
| Queries.PatternClass | query.go:30 | the pattern matches a byte exactly when it is one of '\\', 'x', '8', 'f', 'e' or within '1' to '\\' |
| Queries.ClassIsAscii | query.go:30 | the class matches no byte from 0x80 up, so a part of only high bytes is never wrapped |
| Queries.LeadFrom | query.go:38-43 | the loop stops at the first byte before the colon that is not one of "+-~(", or at the colon |
| Queries.NameOf | query.go:37-44 | a name exists only when the first colon is not the first byte, and it is the bytes between the leading "+-~(" run and that colon |
| Queries.PartField | query.go:37-45 | a part registers a field exactly when its name is a field of the schema whose vno is not 255 |
| Queries.Lowered | query.go:59-61 | every term lowercased, in order |
| Queries.FieldRewrite | query.go:47-67 | the leading run, the name and a colon, the value's lowercased tokens joined by " name:", then ")" when the part ends with one |
| Queries.Rewrite | query.go:37-79 | a part naming a registered field is FieldRewrite; otherwise a sign-led part the class matches is wrapped in parentheses; otherwise it is copied |
| Queries.RewriteUnchanged | query.go:32-80 | a part that names no known non-body field and is not wrapped is copied unchanged |
| Queries.RewriteWrapped | query.go:71-77 | a part of two or more bytes starting with '+' or '-', not followed by '(', that the class matches becomes its sign, '(', the rest and ')' |
| Queries.RewriteField | query.go:44-68 | a space-free part naming a known non-body field keeps everything up to its colon and has the rest lowercased |
| Queries.FieldRewriteLowers | query.go:47-67 | the fielded rewrite of a space-free part is the part up to the colon followed by the rest lowercased |
| Queries.RewriteShape | query.go:32-80 | rewriting keeps a part's first byte and adds no blank |
| Queries.Normalized | query.go:19-82 | preQueryString's result: the rewrites of the nonempty parts, each after one space, with the leading spaces trimmed |
| Queries.BufferedAppend | query.go:63-79 | each part writes a space and then its rewrite onto the buffer |
| Queries.PiecesShape | query.go:32-80 | the rewrites of blank-free parts are nonempty and blank-free |
| Queries.QueryPiecesShape | query.go:19-80 | the rewritten parts of any query are nonempty and blank-free |
| Queries.NormalizedJoins | query.go:19-82 | preQueryString returns the rewritten nonempty parts joined by single spaces, and splitting its result on spaces gives those parts back |
| Queries.TrimBuffered | query.go:81 | trimming the leading space off the buffer leaves the pieces joined by single spaces |
| Queries.SpaceFree | query.go:81 | blank-free pieces hold no space |
| SearchText.KeepTerms | searcher.go:463-468 | the kept words are exactly the words of the reply that are non-empty with no colon after their first byte, in order |
| SearchText.TermsOf | searcher.go:461-468 | the words of the reply split at spaces and kept by KeepTerms |
| SearchText.FilterTerms | searcher.go:461-469 | the terms the loop collects are TermsOf the reply |
| SearchText.KeepTermsStep | searcher.go:463-468 | one more word is kept or skipped after what was kept before |
| SearchText.KeepAllKept | searcher.go:463-468 | words that are all kept come through the filter unchanged |
| SearchText.TermsRoundTrip | searcher.go:461-468 | kept, space-free terms sent back joined by spaces are read back as they were |
| SearchText.SearchStart | searcher.go:633-636 | the search starts where the last term ended, or three bytes before for a six-byte term past offset 3 |
| SearchText.Assemble | searcher.go:631-656 | corrected, the assembly loop with each offset found in query[pos1:] made absolute by adding pos1 |
| SearchText.AssembleLog | searcher.go:630-656 | the loop's result is AssembleAsWritten of the query and terms: the text built with relative offsets, or the panic of a short term's tail |
| SearchText.IndexAtStart | searcher.go:638 | a term at the front of the text is found at offset 0 |
| SearchText.AssembleContiguousFrom | searcher.go:632-656 | when the rest of the query is the remaining terms written one after another and none has six bytes, each term is found where the last ended and the rest is copied whole |
| SearchText.AssembleContiguous | searcher.go:621-656 | a query made of its terms, none of six bytes, is logged whole |
| SearchText.AssembleOverlap | searcher.go:633-646 | two overlapping three-byte-character terms "AB" and "BC" of the query "ABC" log "ABC": the second term's last character is added |
| SearchText.AsWrittenDropsTerm | searcher.go:638-655 | as written, "abcdef" with terms "abc" and "def" logs "abc"; with offsets into the whole query it logs "abcdef" |
| SearchText.AsWrittenPanics | searcher.go:638-646 | as written, "abcde" with terms "abc" and "de" slices "de"[3:] and panics; with offsets into the whole query it logs "abcde" |
| SearchText.AssembleAsWritten | searcher.go:638-656 | a failure of the as-written loop is the index-out-of-range panic, and it only comes from a term shorter than 3 bytes |
| SearchText.AsWrittenFrom | searcher.go:632-656 | as written, the loop from term i on; a failure is the index panic and needs a term shorter than 3 bytes from i on |
| SearchText.AsWrittenShortTermPanics | searcher.go:638-646 | as written, a term shorter than 3 bytes found before the current position makes the loop panic with an index out of range, whatever was assembled before it |
| SearchText.SynonymEntry | searcher.go:170-171 | a line is the word before its first tab followed by its synonyms |
| SearchText.SynonymLines | searcher.go:168-172 | the table's words are exactly the words of the lines |
| SearchText.SynonymMap | searcher.go:167-173 | no entry for an empty payload, otherwise one entry per newline-separated line |
| SearchText.ParseSynonyms | searcher.go:167-173 | the map the loop builds is SynonymMap of the reply |
| SearchText.EntryLines | searcher.go:168-172 | one line per synonym entry, in order |
| SearchText.JoinFree | searcher.go:168-171 | a byte in neither the pieces nor the separator is not in their join |
| SearchText.EntryRoundTrip | searcher.go:170-171 | a line reads back as the entry written into it |
| SearchText.LinesRoundTrip | searcher.go:168-172 | lines written from entries read back as the table of the entries, a later entry for a word replacing an earlier one |
| SearchText.SynonymsRoundTrip | searcher.go:167-173 | a synonym table written one entry per line is parsed back to the same table |
| SearchText.MatchedOf | searcher.go:318 | strings.Split(" ", buf), arguments in this order: " " cut at buf, so a one-space reply gives two empty strings and any other reply " " whole |
| SearchText.SplitSpace | searcher.go:318 | splitting " " at one byte gives two empty strings for a space and " " otherwise |
| SearchText.FieldName | searcher.go:310-313 | the schema's name for the low byte of the argument, else the argument in decimal |
| SearchText.LowByteOfArg | searcher.go:310 | uint8(GetArg()) is Arg2 |
| SearchText.ArgDecimal | searcher.go:312 | the decimal argument reads back as the argument |
| SearchText.BodyOf | searcher.go:535 | the document's body field, or "" when it has none |
| SearchText.HotType | searcher.go:526-528 | "lastnum" or "currnum" when asked for, "total" otherwise |
| SearchText.HotNumber | searcher.go:537-541 | uint32 of the parsed number, i.e. its low 32 bits, and 0 when the value is not a number |
| SearchText.HotNumberItoa | searcher.go:537-538 | a count written in decimal is read back, cut to 32 bits |
| SearchText.HotOf | searcher.go:534-543 | the table maps exactly the bodies of the documents having the column; a missing document panics |
| SearchText.HotEntries | searcher.go:534-543 | the table the loop builds is HotOf the documents |
| SearchText.NilPanics | searcher.go:534-535 | a missing document among the first ones makes the whole table a panic |
| SearchText.RelatedFrom | searcher.go:566-577 | the bodies collected extend those already collected, never include the query, stop at limit (a limit of 0 never stops), each comes from a later document, and a missing document panics |
| SearchText.Related | searcher.go:566-577 | RelatedFrom from the first document with nothing collected |
| SearchText.RelatedBodies | searcher.go:566-577 | the bodies the loop collects are Related of the documents |
| CleanQueries.ReplaceAndOr | searcher.go:671-672 | replacing " AND " and " OR " by one space never lengthens the query |
| CleanQueries.ReplaceAndOrSpaceFree | searcher.go:671-672 | text without a space holds neither word and is copied unchanged |
| CleanQueries.ReplaceAndOrExample | searcher.go:671-672 | "a AND b" becomes "a b" |
| CleanQueries.NameRun | searcher.go:673 | the longest run of [0-9A-Za-z_.-] bytes from a position |
| CleanQueries.NonSpaceRun | searcher.go:673 | the longest run of bytes other than \s from a position |
| CleanQueries.TailMatch | searcher.go:673 | a match found after group 1 is well shaped and starts at group 1 |
| CleanQueries.MatchAt | searcher.go:673 | a match found at a position is well shaped and starts there |
| CleanQueries.OrderedWellFormed | searcher.go:673-674 | matches found one after another do not overlap and lie within the text |
| CleanQueries.FindFrom | searcher.go:673-674 | the matches from a position on are in order, each searched for where the last ended |
| CleanQueries.FindAll | searcher.go:673-674 | FindAllStringSubmatchIndex gives ordered, non-overlapping matches of the expression's shape |
| CleanQueries.CallbackUnknown | searcher.go:676-679 | a term whose field is not in the schema is kept whole |
| CleanQueries.FieldCallback | searcher.go:674-688 | an unknown field's match is kept whole, a boolean-indexed field's is dropped, a parenthesised value keeps the lead and the value without its parentheses, and any other keeps only the lead |
| CleanQueries.CleanFieldQuery | searcher.go:670-690 | " AND " and " OR " become one space, then every name:value match of the expression is replaced by the callback |
| CleanQueries.GroupsOfMatch | searcher.go:674-676 | group 0 of a match is its whole text and group 2 its field name |
| CleanQueries.CleanUnknownFields | searcher.go:670-690 | when no term the expression finds names a known field, cleaning only replaces " AND " and " OR " |
| CleanQueries.CleanWithoutFields | searcher.go:670-690 | with no fields at all, cleaning only replaces " AND " and " OR " |
| CleanQueries.SingleTermMatch | searcher.go:673 | a query that is one "name:value" term is one match with an empty group 1 |
| CleanQueries.CleanOneMatch | searcher.go:670-690 | cleaning such a query is the callback on its groups |
| CleanQueries.OneMatchReplaced | cmd/cmd.go:230-242 | a single match covering the whole subject is replaced by the callback's value |
| CleanQueries.CleanSingleTerm | searcher.go:670-690 | a one-term query: an unknown field's term is kept, a boolean field's term is dropped, and any other field's term is dropped unless its value is parenthesised, in which case the value with its parentheses trimmed is kept |
| SearchSpecs.Exchange | searcher.go:105 | one ExecOK changes only the connection |
| SearchSpecs.UnPackOneWord | searcher.go:251-255 | UnPack of one "I" segment stores the little-endian word under its name, or fails at end of data; the uint32 assertion then holds |
| SearchSpecs.Page | searcher.go:245 | Pack("II", offset, limit) is eight bytes that read back as offset and limit |
| SearchSpecs.PrefixFrame | query.go:88-92 | a QUERY_PREFIX frame with the field's number and name, BOOLEAN exactly for a boolean index |
| SearchSpecs.PrefixSpec | query.go:84-100 | a name already cached, or not a known non-body field, changes nothing; otherwise the name is cached, the older entries stay, and only the connection and the cache change |
| SearchSpecs.PrefixesFor | query.go:32-46 | registering the prefixes of the parts changes only the connection and the cache, and the cache only grows |
| SearchSpecs.PreQuerySpec | query.go:19-82 | preQueryString changes only the connection and the prefix cache |
| SearchSpecs.Prepared | searcher.go:197-199 | an empty query is used as it is, with nothing sent |
| SearchSpecs.CutUnits | query.go:106-109 | the cut length in tens of bytes, rounded up, capped at 127 |
| SearchSpecs.SpecialFrames | query.go:104-115 | a SET_CUT frame for a cut length, then a SET_NUMERIC frame for a numeric field, each for the field's number |
| SearchSpecs.ExecAll | query.go:110-113 | executing calls with errors ignored never opens, closes or breaks the connection |
| SearchSpecs.CountSpec | searcher.go:196-214 | Count changes only the connection, the prefix cache and the stored count, which either stays or becomes the returned count |
| SearchSpecs.CountAfter | searcher.go:200-213 | an empty query with a known count returns it and sends nothing; only the empty query's count is stored |
| SearchSpecs.LimitSpec | searcher.go:222-234 | the first argument sets limit and the second, or 0, the offset; a zero limit becomes 10; with no arguments the offset stays |
| SearchSpecs.WithField | searcher.go:308-315 | only the last document received changes, by the field set to the value |
| SearchSpecs.WithMatched | searcher.go:316-319 | only the last document received changes, its Matched set to strings.Split(" ", buf) |
| SearchSpecs.StreamFrom | searcher.go:275-325 | the stream only consumes input, and a successful decoding keeps the slice length and the documents received |
| SearchSpecs.StreamFrame | searcher.go:280-324 | the same, for one frame of the stream |
| SearchSpecs.EmptyResult | searcher.go:259 | a slice of count empty slots |
| SearchSpecs.SearchSpec | searcher.go:237-331 | Search changes only what it may: connection, prefix cache, limit, offset, lastCount, count and terms |
| SearchSpecs.SearchResults | searcher.go:251-331 | the same, after the RESULT_BEGIN reply |
| SearchSpecs.ResultsFrom | searcher.go:258-331 | the same, for the stream and its end |
| SearchSpecs.AfterStream | searcher.go:277-330 | a stream error is returned as it is, otherwise the documents, unless the logQuery of an empty query panics |
| SearchSpecs.TermsAfter | searcher.go:451-470 | an empty query with stored terms returns them and sends nothing; otherwise the stored terms stay or become the returned ones |
| SearchSpecs.TermsSpec | searcher.go:446-471 | Terms changes only the connection, the prefix cache and the stored terms |
| SearchSpecs.LogQuerySpec | searcher.go:621-662 | logQuery changes only the connection and the stored terms, and its only failure is the index-out-of-range panic of the loop |
| SearchSpecs.LogText | searcher.go:631-657 | fails exactly when the as-written assembly panics; otherwise the assembled text with spaces trimmed |
| SearchSpecs.SetDbSpec | searcher.go:407-417 | on success the current database becomes the last one and db the current one; on failure only the connection changes |
| SearchSpecs.AddDbSpec | searcher.go:420-432 | on success db joins the set of added databases; on failure only the connection changes |
| SearchSpecs.AddAll | searcher.go:695-697 | AddDB of each database changes only the connection and the set, which only grows |
| SearchSpecs.RestoreSpec | searcher.go:692-698 | SetDB(lastDB), then AddDB of each recorded database, in range order |
| SearchSpecs.HotQuerySpec | searcher.go:523-547 | an empty table when log_db cannot be selected; otherwise the page limited to MaxLimit, the search for "<column>:1", then HotAfter |
| SearchSpecs.HotAfter | searcher.go:533-546 | a panic propagates without restoreDb; any other search error gives an empty table; otherwise HotOf's table, then restoreDb |
| SearchSpecs.RelatedSpec | searcher.go:550-581 | the cleaned stored query when none is given, then RelatedFor with MaxLimit |
| SearchSpecs.RelatedFor | searcher.go:556-558 | an empty or fielded query returns nothing and sends nothing |
| SearchSpecs.RelatedSearch | searcher.go:563-565 | the page limited to limit + 1 and the operator set to OR, then the search and RelatedAfter |
| SearchSpecs.RelatedAfter | searcher.go:566-580 | a panic propagates; any other error gives nothing; otherwise Related's bodies, with the operator and the databases restored |
| SearchSpecs.DbTotalSpec | searcher.go:435-443 | GetDbTotal changes only the connection |
| SearchSpecs.Thousandths | searcher.go:479 | math.Ceil(0.001 * total) is the integer ceiling of total / 1000 |
| SearchSpecs.CorrectedSpec | searcher.go:476-493 | GetCorrectedQuery changes only the connection |
| SearchSpecs.CorrectedStored | searcher.go:478-483 | with no count stored, the cleaned stored query is used without asking the database total |
| SearchSpecs.CorrectedCounted | searcher.go:479-483 | nothing when the count exceeds a thousandth of the database total; otherwise CorrectedFor of the cleaned stored query |
| SearchSpecs.CorrectedFor | searcher.go:484-486 | an empty or fielded query returns nothing and sends nothing |
| SearchSpecs.ExpandFrom | searcher.go:506-518 | the loop only consumes input, and the words only grow |
| SearchSpecs.ExpandedSpec | searcher.go:498-520 | GetExpandedQuery changes only the connection |
| SearchSpecs.QuerySpec | searcher.go:392-404 | GetQuery changes only the connection and the prefix cache |
| SearchSpecs.SynonymsSpec | searcher.go:179-189 | an empty word returns nothing and sends nothing; only the connection changes |
| SearchSpecs.AllSynonymsFrameAsWritten | searcher.go:154-163 | as written, the frame never carries the paging block |
| SearchSpecs.AllSynonymsFrame | searcher.go:154-163 | with the test corrected, GET_SYNONYMS carries the paging block in Buf1 whenever a limit is given, and Arg1 1 when stemmed |
| SearchSpecs.AllSynonymsSpec | searcher.go:153-176 | GetAllSynonyms, as written (no paging block), changes only the connection |
| SearchSpecs.FuzzySpec | searcher.go:70-76 | only the default operator changes, to OR exactly when fuzzy |
| SearchSpecs.MatchedTermFrame | searcher.go:98-103 | SET_MISC MATCHED_TERM with Arg2 1 exactly when required |
| SearchSpecs.WeightingFrameAsWritten | searcher.go:112-124 | as written, a frame is sent exactly for policy 2 |
| SearchSpecs.WeightingFrame | searcher.go:109-124 | with the cases merged, SET_MISC WEIGHT_SCHEME is sent exactly for the policies 0, 1 and 2 |
| SearchSpecs.ParseFlags | searcher.go:130-133 | BOOLEAN, PHRASE and LOVEHATE always, and AUTO_MULTIWORD_SYNONYMS exactly when auto |
| SearchSpecs.AddQueryStringSpec | searcher.go:351-362 | a scale in (0, 655.35) other than 1 panics at Pack's type assertion; otherwise the normalised query is returned; only the connection and the prefix cache change |
| SearchSpecs.SetQuerySpec | searcher.go:337-343 | a nonempty query is stored, an empty one leaves the stored query |
| SearchSpecs.QueryTermFrame | searcher.go:373-387 | QUERY_TERMS for several terms, QUERY_TERM for one, with the field's number or 255 and the terms joined by tabs |
| SearchSpecs.AddQueryTermSpec | searcher.go:366-389 | a scale in (0, 655.35) other than 1 panics; no terms sends nothing; only the connection changes |
| SearchSpecs.ClearQuerySpec | searcher.go:611-619 | QUERY_INIT, and the stored query, count and terms forgotten |
| SearchSpecs.InitialState | searcher.go:50-58 | the connection given, count unknown (MaxUint32) and no stored terms |
| SearchSpecs.ProjectSpec | searcher.go:591-609 | on failure the connection ends closed; on success the prefix cache and the database set start empty and nothing else but the connection changes |
| SearchSpecs.NewSearcherSpec | searcher.go:58-66 | the initial session (count MaxUint32) on the connection after SetTimeout(0), then setProject |
| Searchers.RewritePart | query.go:36-79 | what the loop writes for one nonempty part is Rewrite of it, and the field whose prefix it registers is PartField of it |
| Searchers.FieldedPart | query.go:47-67 | the rewrite of a part naming a known field is FieldRewrite of it |
| Searchers.LowerTerms | query.go:58-61 | the lowercasing loop leaves every token lowercased |
| Searchers.Searcher.constructor | searcher.go:50-58 | a searcher over the connection and both schemas, in InitialState |
| Searchers.Searcher.Send | searcher.go:105 | one ExecOK, as Exchange gives |
| Searchers.Searcher.RegQueryPrefix | query.go:84-100 | the state PrefixSpec gives |
| Searchers.Searcher.PreQueryString | query.go:19-82 | the state and normalised query PreQuerySpec gives |
| Searchers.Searcher.WriteParts | query.go:32-80 | the prefixes of the parts registered, and the buffer holding a space before each rewritten nonempty part |
| Searchers.Searcher.WriteNext | query.go:32-80 | one more part registered and written after the earlier ones |
| Searchers.Searcher.WritePart | query.go:36-79 | a nonempty part's prefix registered and its rewrite returned |
| Searchers.Searcher.InitSpecialField | query.go:103-116 | SET_CUT and SET_NUMERIC of the fields in order, each reply ignored, as ExecAll of SpecialCalls gives |
| Searchers.Searcher.SpecialField | query.go:105-114 | for one field, SET_CUT with the cut length in tens when it is positive, then SET_NUMERIC when the field is numeric, replies ignored, as ExecAll of SpecialCallsOf gives |
| Searchers.Searcher.Fuzzy | searcher.go:70-76 | the state FuzzySpec gives |
| Searchers.Searcher.SetRequireMatchedTerm | searcher.go:97-107 | one ExecOK of MatchedTermFrame, its reply ignored |
| Searchers.Searcher.SetWeightingScheme | searcher.go:111-126 | one ExecOK of WeightingFrameAsWritten for policy 2 only, nothing for any other policy |
| Searchers.Searcher.SetAutoSynonyms | searcher.go:129-137 | one ExecOK of QUERY_PARSEFLAG with ParseFlags, its reply ignored |
| Searchers.Searcher.Prepare | searcher.go:197-199 | the state and query Prepared gives |
| Searchers.Searcher.Count | searcher.go:196-214 | the state and count CountSpec gives |
| Searchers.Searcher.CountPrepared | searcher.go:200-213 | the state and count CountAfter gives |
| Searchers.Searcher.GetLastCount | searcher.go:217-219 | the count of the last search |
| Searchers.Searcher.Limit | searcher.go:222-234 | the state LimitSpec gives |
| Searchers.Searcher.Search | searcher.go:237-331 | the state and result SearchSpec gives |
| Searchers.Searcher.ReadResults | searcher.go:251-331 | the state and result SearchResults gives |
| Searchers.Searcher.StreamResults | searcher.go:258-331 | the state and result ResultsFrom gives |
| Searchers.Searcher.FinishSearch | searcher.go:326-330 | the state and result AfterStream gives |
| Searchers.Searcher.ReadStream | searcher.go:259-325 | the result slice filled in place as StreamFrom decodes the stream from an empty slice |
| Searchers.Searcher.TakeFrame | searcher.go:276-324 | one frame applied to the array in place: either the end of the stream and StreamFrame's result, or the index of the next slot, with the rest of the stream still as StreamFrom gives |
| Searchers.Searcher.Terms | searcher.go:446-471 | the state and terms TermsSpec gives |
| Searchers.Searcher.TermsPrepared | searcher.go:451-470 | the state and terms TermsAfter gives |
| Searchers.Searcher.LogQuery | searcher.go:621-662 | the state and panic LogQuerySpec gives |
| Searchers.Searcher.AddSearchLog | searcher.go:664-668 | one ExecOK of SEARCH_ADD_LOG expecting LOGGED, and its error |
| Searchers.Searcher.SetQuery | searcher.go:337-343 | the state SetQuerySpec gives |
| Searchers.Searcher.AddQueryString | searcher.go:351-362 | the state and result AddQueryStringSpec gives |
| Searchers.Searcher.AddQueryTerm | searcher.go:366-389 | the state and error AddQueryTermSpec gives |
| Searchers.Searcher.GetQuery | searcher.go:392-404 | the state and result QuerySpec gives |
| Searchers.Searcher.ClearQuery | searcher.go:611-619 | the state ClearQuerySpec gives |
| Searchers.Searcher.SetDB | searcher.go:407-417 | the state and error SetDbSpec gives |
| Searchers.Searcher.AddDB | searcher.go:420-432 | the state and error AddDbSpec gives |
| Searchers.Searcher.RestoreDb | searcher.go:692-698 | SetDB of the last database, then AddDB of each added one, as RestoreSpec gives |
| Searchers.Searcher.GetDbTotal | searcher.go:435-443 | the state and total DbTotalSpec gives |
| Searchers.Searcher.GetCorrectedQuery | searcher.go:476-493 | the state and words CorrectedSpec gives |
| Searchers.Searcher.CorrectedStored | searcher.go:478-483 | the state and words CorrectedStored gives |
| Searchers.Searcher.CorrectedCounted | searcher.go:479-482 | the state and words CorrectedCounted gives |
| Searchers.Searcher.CorrectedFor | searcher.go:484-492 | the state and words CorrectedFor gives |
| Searchers.Searcher.GetExpandedQuery | searcher.go:498-520 | the state and words ExpandedSpec gives |
| Searchers.Searcher.GetSynonyms | searcher.go:179-189 | the state and lines SynonymsSpec gives |
| Searchers.Searcher.GetAllSynonyms | searcher.go:153-176 | the state and table AllSynonymsSpec gives, with Buf1 set only on a failed Pack |
| Searchers.Searcher.GetHotQuery | searcher.go:523-547 | the state and table HotQuerySpec gives |
| Searchers.Searcher.HotFinish | searcher.go:533-546 | the state and table HotAfter gives |
| Searchers.Searcher.GetRelatedQuery | searcher.go:550-581 | the state and words RelatedSpec gives |
| Searchers.Searcher.RelatedFor | searcher.go:556-580 | the state and words RelatedFor gives |
| Searchers.Searcher.RelatedSearch | searcher.go:559-580 | the state and words RelatedSearch gives |
| Searchers.Searcher.RelatedFinish | searcher.go:565-580 | the state and words RelatedAfter gives |
| Searchers.Searcher.Close | searcher.go:584-589 | the connection closed and dropped; every other field kept |
| Searchers.Searcher.SetProject | searcher.go:591-609 | ProjectSpec's error; on failure the connection is closed and dropped, on success the state ProjectSpec gives |
| Searchers.NewSearcher | searcher.go:49-67 | SetTimeout(0), its error ignored, then setProject: a fresh searcher in NewSearcherSpec's state, or nil and the error with the connection as NewSearcherSpec leaves it |
| Searchers.UnPackWord | searcher.go:251-255 | UnPack of one "I" segment and the uint32 assertion give WordOf the data |
| Searchers.PiecesStep | query.go:32-79 | one more part adds its rewrite when it is nonempty |
| Searchers.PrefixesStep | query.go:45-46 | one more part registers the prefix it names, if any |
| Searchers.SpecialCallsFront | query.go:104-115 | the special calls of a list of fields are those of its first field, then those of the rest |
| Searchers.ExecAllAppend | query.go:104-115 | executing two lists of calls, errors ignored, is executing the first, then the second |
| SearchProps.NextFrame | server/connection.go:133-138 | after RESULT_BEGIN, GetSearchResponse reads exactly the next encoded frame |
| SearchProps.EndFrame | searcher.go:320 | the OK / RESULT_END frame that closes a stream |
| SearchProps.NewDocumentAccepts | schema/document.go:24-41 | NewDocument accepts every metadata block, so a DOC frame never ends the stream with an error |
| SearchProps.Filled | searcher.go:306-307 | the documents of the metadata blocks placed in the slots from n on |
| SearchProps.StreamDocStep | searcher.go:301-307 | one DOC frame fills slot n and the stream goes on after it |
| SearchProps.AheadOfDoc | searcher.go:301-307 | past the first DOC frame the rest of the stream is still ahead |
| SearchProps.StreamDocPastEnd | searcher.go:306 | a DOC frame with no slot left panics on result[docIdx] |
| SearchProps.StreamEndStep | searcher.go:320-321 | RESULT_END ends the stream with the slice as it is |
| SearchProps.FilledStep | searcher.go:306-307 | filling one slot and then the rest is filling them all |
| SearchProps.StreamOfDocs | searcher.go:275-325 | a stream of DOC frames and RESULT_END, with room for all of them, fills the slots from n on in arrival order and leaves the others as they were |
| SearchProps.StreamOverflows | searcher.go:306 | more DOC frames than slots: the one past the end panics |
| SearchProps.SearchSliceFilled | searcher.go:259-325 | the slice of count slots holds the k-th DOC frame's document in slot k and nil in every slot no DOC frame reached |
| SearchProps.StreamFieldFirst | searcher.go:308-309 | a FIELD frame before the first DOC frame is skipped |
| SearchProps.StreamFieldAfterDoc | searcher.go:308-315 | a FIELD frame after a DOC frame sets that field, under its schema name, on the last document |
| SearchProps.StreamUnexpected | searcher.go:322-323 | a frame of no kind the stream knows ends it with an error naming that frame |
| SearchProps.AheadOfWord | searcher.go:507-512 | past the first FIELD frame of a word stream the rest of the words are still ahead |
| SearchProps.ExpandWordStep | searcher.go:507-512 | a FIELD frame at the head of the input adds its payload to the words and the loop goes on after it |
| SearchProps.ExpandEndStep | searcher.go:513-514 | RESULT_END ends the loop with the words collected so far |
| SearchProps.ExpandOfWords | searcher.go:506-518 | over a stream of FIELD frames and RESULT_END the loop collects exactly the FIELD payloads, in arrival order, and consumes the stream through RESULT_END |
| SearchProps.ExpandedWords | searcher.go:498-520 | when GET_EXPANDED is answered with RESULT_BEGIN and FIELD frames follow, GetExpandedQuery returns exactly their payloads |
| SearchProps.SearchResultsPaging | searcher.go:251-259 | after RESULT_BEGIN, an undecodable count leaves the state as it was; otherwise lastCount is the count, the paging is back at 10 and 0, and a decoded result has one slot per counted document |
| SearchProps.SearchPaging | searcher.go:237-331 | a search that returns documents has reset the paging and returns lastCount slots |
| SearchProps.CountTwice | searcher.go:200-209 | a second Count("") after one that stored a count answers from the cache, with no exchange |
| SearchProps.CountKeepsCache | searcher.go:207-209 | a query that normalises to text leaves the stored count alone |
| SearchProps.NormalizedEmpty | query.go:19-82 | the empty query normalises to the empty query |
| SearchProps.TermsTwice | searcher.go:451-469 | a second Terms("") after one that stored its words returns them again, with no exchange |
| SearchProps.PrefixOnce | query.go:84-100 | regQueryPrefix twice for a name is regQueryPrefix once |
| SearchProps.PrefixesCover | query.go:37-46 | every field a part names is in the prefix cache afterwards |
| SearchProps.PrefixesCached | query.go:85-86 | parts whose fields are all cached send nothing |
| SearchProps.PreQueryTwice | query.go:19-100 | preQueryString of the same query a second time registers nothing: at most one QUERY_PREFIX per field per session |
| SearchProps.LogQueryWrites | searcher.go:621-668 | with the stored query's terms known, logQuery panics exactly when it does not skip the query and the as-written loop panics; it writes nothing when it skips, panics or finds the text too short, and otherwise exactly one write: the buffer and the ADD_LOG frame of the text assembled as written |
| SearchProps.AddAllWithin | searcher.go:695-697 | AddDB of databases already recorded leaves the record as it was |
| SearchProps.RestoreKeepsDbs | searcher.go:692-698 | restoreDb keeps the record of added databases; when its SetDB succeeds, the last database is current again and the two swap |
| SearchProps.HotAfterKeepsDbs | searcher.go:545 | after its search GetHotQuery keeps the recorded databases, on every outcome |
| SearchProps.HotQueryKeepsDbs | searcher.go:523-547 | GetHotQuery leaves the recorded databases as it found them, whatever happens |
| SearchProps.RelatedAfterRestores | searcher.go:566-580 | after its search GetRelatedQuery keeps the databases and, when it returns a list, restores the operator |
| SearchProps.RelatedSearchRestores | searcher.go:559-580 | the search of GetRelatedQuery, once log_db is selected, keeps the databases and restores the operator |
| SearchProps.RelatedRestores | searcher.go:550-581 | GetRelatedQuery keeps the recorded databases and, whenever it returns a list, has put back the caller's default operator |
| SearchProps.RelatedForRestores | searcher.go:556-580 | the same, once the query is chosen |
| SearchProps.AllSynonymsPagingLost | searcher.go:156-160 | as written, GetAllSynonyms sends the frame of an unlimited request whatever the limit and offset; the intended frame carries them |
| SearchProps.WeightingSchemesDropped | searcher.go:112-124 | as written, SetWeightingScheme sends nothing for the schemes 0 and 1; the two agree on every other value |

## Left out

- Sockets: `NewConnection` dialling and the TCP reads and writes (server/connection.go:26-48) are not modelled. The connection holds an input byte stream and an output log instead. A read of n bytes yields what is left when fewer than n remain, so TCP short reads do not appear.
- `Send` (server/connection.go:119-130) is covered only through the flush it shares with `Exec`. Nothing else in the core calls it.
- Concurrency: `AsyncExec`, `execSync` and the mutexes (server/connection.go:114-116, 181-187; query.go:14, 20-21) are left out. The model is single-threaded.
- The `bytes.Buffer.Write` error branch (server/connection.go:80-83) is not modelled, because that write never fails.
- Use after `Close` is excluded by a precondition (`conn != null`). In Go it is a nil dereference.
- `binary.Read` reports `io.EOF` when no byte is left and `io.ErrUnexpectedEOF` on a short read. The model folds both into one error, `UnexpectedEof`, because nothing in the core tells them apart.
- TOML decoding of the configuration (schema/config.go:26-33, 66-70) is not modelled. The model starts from the decoded fields, and the logger literal is given as the field list it decodes to.
- `LoadConf`'s file read and TOML decode, and the dialling in `NewIndexer` and `NewSearcher`, are not modelled. The constructors take an opened connection and a decoded schema.
- Floating point: `SetCutOff` and `SetSynonymScale` (searcher.go:80-93, 140-150) are left out.
- The scale argument of `AddQueryString` and `AddQueryTerm` is only a flag (`scaled`). Packing the scale with "n" fails the type assertion, so a scaled query panics as modelled.
- The read-only part of the weight is kept as raw bytes.
- SearchSpecs.CutUnits: computes `math.Ceil(cutlen/10)` in integers and caps it at 127. Above 2550 the Go conversion of the float to `uint8` is implementation-defined, and there the model simply caps.
- FACETS frames: a FACETS frame longer than its 6-byte header panics, as the type assertion on its value length does. A shorter one is skipped. The facet table itself is not built.
- `strings.ToLower` is modelled on ASCII bytes only, so Unicode case folding is left out.
- Go map iteration order is a parameter wherever the source ranges over a map. The project's decoded fields are the `fields` sequence, in the order the range at schema/schema.go:43 takes. The log fields are `CheckValid`'s `logFields`, any order of the logger literal (schema/config.go:71). The ranges at indexer.go:284, query.go:104 and searcher.go:695 take an `order` parameter.
- Configs.Config.CheckValid: builds the log schema in whatever order `logFields` gives; its ensures does not say which of pinyin and currtag `vnoMap[6]` names. `Logger.LoggerVnoCollisionAnyOrder` proves that in every order both fields get vno 6 and `vnoMap[6]` names one of them. It does not prove that the one named is the one the range reaches last (schema/schema.go:77).
- Regular expressions: the regexp engine is not modelled. The two patterns the core uses, the bare port and the preQueryString byte class, are written out by hand.
- `UnPack` indexes `format[0]` on an empty segment of its format string. That panic is excluded by the `ValidFormat` precondition, which every format in the source meets.
- The `String()` methods (cmd/cmd.go:67-69, schema/field.go:61-63) and the getters `Indexer.Schema()` and `Schema.VnoMap()` carry no logic and are not modelled separately.
- The SCWS tokenizer client, the example program and the tests need a live server, so they are not part of this model.

## Findings

The classes and their specification functions follow the code as written, including the five behaviours below; each corrected member is a separate definition with the intended property proved about it.

| source | as written | input that shows it | evidently intended | confidence | as-written member | corrected member |
|---|---|---|---|---|---|---|
| schema/config.go:55-57 | a bare search port is written into `IndexServer` with "127.0.0.1:" before it, and `SearchServer` stays a bare port | `IndexServer` "" and `SearchServer` "8384" give "127.0.0.1:8384" for both the index address and the search port | `SearchServer` becomes "127.0.0.1:8384" and `IndexServer` keeps its default | not executed | Configs.SearchPortOverwritesIndex | Configs.NormalServers |
| schema/logger.go:9-10 | the pinyin field sets `nid = 2` instead of `fid = 2`, so its sorted-order wire number collides with another field's | the logger schema gives pinyin and currtag the same vno 6 | pinyin gets fid 2, and every log field has its own wire number | not executed | Logger.LoggerVnoCollision | Logger.LoggerVnoMapInverse |
| searcher.go:638-655 | logQuery cuts the stored query with offsets taken relative to `query[pos1:]`, as if they were absolute | query "abcdef" with terms "abc", "def" logs "abc"; query "abcde" with terms "abc", "de" panics on `"de"[3:]` | a query made of its terms is logged whole ("abcdef", "abcde") | not executed | SearchText.AsWrittenDropsTerm | SearchText.AssembleContiguous |
| searcher.go:157-159 | the paging block is attached only when `Pack` fails (`err != nil`) | limit 10, offset 0: the frame carries no paging block | the offset and limit are sent when `limit > 0` | not executed | SearchProps.AllSynonymsPagingLost | SearchSpecs.AllSynonymsFrame |
| searcher.go:112-124 | the empty `case 0:` and `case 1:` do not fall through, so only scheme 2 is sent | policy 0 (BM25) sends nothing | schemes 0, 1 and 2 are all sent | not executed | SearchProps.WeightingSchemesDropped | SearchSpecs.WeightingFrame |

Some as-written behaviours are modelled as the code does them but are not corrected:

- The preQueryString byte class (query.go:30) is written with escapes that make it ASCII-only (Queries.ClassIsAscii).
- The MATCHED frame calls `strings.Split` with its arguments swapped (searcher.go:318).
- The indexer's buffer size is the constant 30 (indexer.go:184).
