# Mycat-JS in Dafny

A model of the hard parts of a MySQL proxy, with the properties it is built
for proved for every input, every run and every interleaving:

- the **SQL lexer, parser and rewriter** (`SqlText`, `SqlNumbers`, `SqlComments`,
  `SqlLexer`, `SqlGrammar`, `SqlStatementEnds`, `SqlQuoting`, `SqlTree`,
  `SqlObject`, `MysqlParser`, `SqlRewrite`, and, written out character by character,
  `SqlWords`, `SqlPrograms`, `SqlRewriteTexts`): a lexer object with a moving cursor feeds a recursive-descent
  parser that builds a tree of SQL objects; the rewriter splices replacement
  values into the original text;
- the **wire codec** (`MysqlMessage`, `Framing`, `RowPacket`, `ResultSet`,
  `Compression`, and byte by byte `WireBytes`): length-encoded values, rows over frames, reassembly, the
  result-set stream and compressed packets;
- **allocators and pools under coroutines** (`BufferPool`, `DataSource`,
  `Scheduler`, and what their runs can still reach: `BufferPoolRuns`,
  `DataSourceRuns`, `SchedulerNames`, `SchedulerShutdown`; and what one step does to
  each field: `BufferPoolSteps`, `DataSourceSteps`, `SchedulerSteps`): step systems whose runs are arbitrary
  sequences of the atomic steps between two waits. A client of a data source is one front connection's
  use of one node: it acquires a connection, binds it, and gives it back by
  unbinding it; pool warm-up gives it back at once. A buffer belongs to the coroutine
  it was handed to: nobody else resizes or releases it, and its owner does not while
  it waits;
- the **connection state machine** (`FrontSession`, and what each packet is answered
  with: `FrontReplies`): the read loop, the handler chain, and authentication, which
  takes itself out of the chain it runs in;
- two **small parsers of configuration values** (`DecimalParser`, `DataNodes`, what
  written definitions of nodes mean in `NodeTexts`, and trimming in `Texts`).

Code that changes things in place is a class or a method with loops, proved
against a specification function; what the code is for is then proved about the
function, and so is what it does to the bytes, characters, lists and fields
themselves, without naming the function's own parts. Expression-like code is
functions and lemmas.

## How the code is read

Each foreign call is a parameter: the upper-casing of words, the table of
reserved words, what a visitor sets on a SQL object (a function of its kind and
span), deflate and inflate, number parsing and printing, the host of a node,
liveness checks, connection creation, the privilege tables, timers and the clock.
Characters are those of the text, not UTF-16 units. A socket is a byte sequence;
reading n bytes gives all of them or nothing. Writing past the end of a buffer
raises an error and a byte keeps the low eight bits of what is written into it.
`writeUInt16` and `writeInt64` have no byte order of their own; they are read as
little-endian, like the readers (net/mysql/mysql-message.js:104, 114).

Where the code departs from its evident intent, the code is modelled as it
stands, the departure is stated exactly, and the intent is proved beside it:

- **INT or BIGINT.** The digit count starts one place early
  (sql/parser/sql-lexer.js:444-562), so the fast test of a 15-digit number compares
  it with the 16-digit limit as text. INT still implies a safe value, but a
  safe value is BIGINT exactly in the range `SqlNumbers.IntIsSafe` names.
- **`escape` of a sub-range** overwrites the text before it takes the right part
  (sql/sql-object.js:170-172): that part is lost unless it is empty
  (`SqlQuoting.Escape`).
- **Block comments.** A star is read together with the character behind it
  (sql/parser/sql-lexer.js:303-306), so the first `*/` of a comment closes it
  exactly when the stars that end there are odd in number or the text ends there
  (`SqlComments.BlockCommentIff`): `/****/ x` is closed at once, `/***/ x` runs on.
- **Line comments.** The span is the comment's text exactly when a line break ends
  it; at the end of the text it falls short (sql/parser/sql-lexer.js:289;
  `SqlComments.LineCommentIff`). An unknown character is an empty identifier, which
  the parser rejects.
- **`limit n ;`** takes the `;` into the clause, so what follows has to be filler and
  then the end or another `;` (`SqlStatementEnds.BehindLimitIff`): a statement
  directly behind it is refused, one behind `;;` is not.
- **A second rendering** of a statement gives the first one's text exactly when no
  expression got its name during the first (`SqlObjects.RenderTwice`).
- **`packetHeaderSize`** returns nothing (net/mysql/mysql-packet.js:160). Every
  comparison with it is false, so `RowPacket.Write`, the code as it stands,
  never flushes, never splits and never enlarges the buffer. `WriteSplit` is the
  writer its branches mean, with header size 4, the value size where the prefix
  size is left (net/mysql/row-packet.js:99) and the room of the frame kept apart
  from the room of the buffer (net/mysql/row-packet.js:94-100).
- **An empty result set** throws on its first column, and **an empty value** is
  sent as NULL (backend/handler/single-node-handler.js:55, 73, 91).
- **Growing a buffer** asks for the whole new size beside the old buffer
  (buffer/buffer-pool.js:88-102), and coroutines that wait keep what they have, so
  they can wait for each other for ever. A waiting request can still be granted, in
  some run, exactly when it is in no `BufferPools.Gridlock`: a set of waiting
  coroutines that each ask for more than is left beside all they have
  (`BufferPoolRuns.CanBeGrantedIff`).
- **A data source's connection count** never falls when a dead connection is
  closed, because the raw handle is passed on (backend/back-connection.js:106): a
  client can be given a connection, in some run, exactly when fewer died than the
  pool may have (`DataSourceRuns.ServedIff`). A client that sleeps at a full pool
  never looks at the queues again: it can come to create a connection exactly when
  the pool is not full or some creation is still under way
  (`DataSourceRuns.SleeperServedIff`).
- **Cancelling a periodic task in its first run** (util/scheduler.js:80-112) does
  not stop it.
- **A timer loses its name** in two ways when that name was cancelled and is in use
  again: the end of an awaited cancel takes it off the registry, and so does the
  end of a task's first run (util/scheduler.js:112-114, 127-146). No other step
  takes the name of a timer that can go off (`SchedulerNames.NamesKeptIff`).
- **A shutdown that waits** is not safer than one that does not: while it joins a run,
  a periodic task it has still to come to may start its first run, and names may be
  taken off in front of it (util/scheduler.js:148-168). `SchedulerShutdown.AwaitedShutdownIff`
  says exactly when it is final.
- **A BigInt replacement** always throws, since `isNaN` refuses it
  (sql/sql-object.js:109-114); so does a login whose character set is not known,
  since its error names a variable that is not there (net/mysql/auth-packet.js:67).
- **A statement that is replaced as a whole** gives its columns other names in the head
  than in the rows: an expression with a value is first named by its rendering, which
  records its source text as alias (sql/sql-expr.js:24-55; `SqlObjects.QueryAndColumns`).
- **`AuthSwitchPacket`** has no `super()` (net/mysql/auth-switch-packet.js:17), so a
  client of another plugin is never authenticated; a character set that is not
  known throws after `authenticated` is set. A packet over the limit makes the
  reader return nothing, on which the read loop throws.
- **`distributeDataNodes`** looks a list up by host but keeps it by node
  (config/loader/xml/xml-schema-loader.js:317-319), so it distributes nothing: its
  result gives the hosts their turns exactly when the table lists them so already
  (`DataNodes.DistributeDealsIff`).

## Model

| member | source | states |
|---|---|---|
| SqlText.LexBounds | sql/parser/sql-lexer.js:97-199 | a token ends between where it starts and the end of the text; blanks, comments and signs are not empty, only the end token sits at the end, and every token but a comment has its span inside what was consumed |
| SqlText.SkipLandsAfterFiller | sql/parser/sql-lexer.js:201-212 | skipping blanks and comments lands on the first other token, with nothing but filler passed |
| SqlNumbers.IntegerTokenIff | sql/parser/sql-lexer.js:444-562 | a token is an integer exactly where a maximal run of digits is not glued to a letter, point or exponent, and it spans that run |
| SqlNumbers.IntClassIff | sql/parser/sql-lexer.js:530-562 | by value, exactly which integer texts are classed INT, for any number of leading zeros |
| SqlNumbers.IntIsSafe | sql/parser/sql-lexer.js:530-562 | INT implies a value of at most 2^53-1, and the class tells safe from unsafe exactly outside one stated range |
| SqlNumbers.SafeBigInt | sql/parser/sql-lexer.js:530-562 | 999999999999999 is safe and yet BIGINT |
| SqlNumbers.DoubleIsFloatText | sql/parser/sql-lexer.js:444-562 | a DOUBLE token's text is digits with a point, an exponent, or both |
| SqlNumbers.DoubleTokenIff | sql/parser/sql-lexer.js:444-562 | a word is a DOUBLE token exactly where a float text is not glued to a digit, letter or point |
| SqlComments.BlockScanClosesIff | sql/parser/sql-lexer.js:295-316 | the loop stops at the first `*/` exactly when an odd number of stars ends there or the text does, and never before it |
| SqlComments.BlockCommentIff | sql/parser/sql-lexer.js:295-316 | so a block comment's token is the comment a reader sees exactly then |
| SqlComments.OpenCommentIff | sql/parser/sql-lexer.js:295-316 | a comment that is never closed takes the rest of the text, and when its span is all of that |
| SqlComments.LineCommentIff | sql/parser/sql-lexer.js:273-293 | a line comment's span is its text exactly when a line break ends it; otherwise by how much it falls short |
| SqlComments.StarsInARow | sql/parser/sql-lexer.js:295-316 | three comments: `/****/ x` closed at once, `/***/ x` not, `/***/` closed by the end of the text |
| SqlLexing.SqlLexer.NexToken | sql/parser/sql-lexer.js:97-199 | the scan sets exactly the token of the text at the cursor or fails with its error, and goes on by exactly the lines that token has for it |
| SqlLexing.SqlLexer.LoadToken | sql/parser/sql-lexer.js:59-79 | for all eight settings of its flags: the current token is kept when there is one; otherwise the next one is loaded, past blanks and comments if asked, and the end of the text is a token or an error |
| SqlLexing.SqlLexer.SkipBlankComment | sql/parser/sql-lexer.js:201-212 | loads the first token behind all filler and says whether any filler was skipped |
| SqlLexing.SqlLexer.BlankToken | sql/parser/sql-lexer.js:250-271 | consumes the whole run of blanks and counts exactly its newlines, but for one that opens it |
| SqlLexing.SqlLexer.LineCommentToken | sql/parser/sql-lexer.js:273-293 | consumes up to the newline; the span leaves out the line break, and the last character at the end of the text |
| SqlLexing.SqlLexer.MultiComment | sql/parser/sql-lexer.js:295-316 | takes each star together with the character behind it and stops at the first such pair that is `*/`, or at the end of the text |
| SqlLexing.SqlLexer.QuotedIdToken | sql/parser/sql-lexer.js:318-352 | finds the closing quote over doubled quotes and counts every newline, or fails at the end of the text or at a NUL |
| SqlLexing.SqlLexer.StrToken | sql/parser/sql-lexer.js:354-383 | finds the closing quote over doubled quotes and counts every newline, or fails at the end of the text |
| SqlLexing.SqlLexer.ParseUserVar | sql/parser/sql-lexer.js:386-442 | reads a bare or quoted variable name |
| SqlLexing.SqlLexer.ParseToken | sql/parser/sql-lexer.js:444-562 | one pass with its flags and positions gives the word, number or sign the text holds |
| SqlLexing.TokenLinesAre | sql/parser/sql-lexer.js:250-383 | every newline of a token is counted, but for one that begins a run of blanks and, in a block comment, one behind a star |
| SqlWords.NameLex | sql/parser/sql-lexer.js:444-562 | letters, `$`, `_`, everything from U+0080 on and, behind the first character, digits are one unquoted name up to the first other character |
| SqlWords.VariableNameLex | sql/parser/sql-lexer.js:386-442 | the bare name of a user variable reaches as far as such characters, digits and points do |
| SqlWords.QuotedNameLex | sql/parser/sql-lexer.js:318-352 | a name in back quotes, or in brackets or double quotes where those are the identifier quote, is one quoted name |
| SqlWords.QuotedVariableLex | sql/parser/sql-lexer.js:386-442 | so is a user variable in any of its three quotes |
| SqlWords.StringLex | sql/parser/sql-lexer.js:354-383 | a text in single quotes, or in double quotes that quote no identifiers, is one string |
| SqlWords.BlanksSkip | sql/parser/sql-lexer.js:250-271 | any number of the six blanks, mixed in any way, is passed over |
| SqlWords.SignLex | sql/parser/sql-lexer.js:97-199 | each of the sixteen signs is a token of its own |
| SqlWords.ArithLex | sql/parser/sql-lexer.js:97-199 | `+`, `*`, `%`, and `-` and `/` where they begin no comment, are arithmetic tokens |
| SqlWords.BracketLex | sql/parser/sql-lexer.js:97-199 | a bracket that is not the identifier quote is a sign |
| SqlWords.CommentLex | sql/parser/sql-lexer.js:97-199 | which two characters, or one, begin a comment, and of which kind |
| SqlWords.UnknownLex | sql/parser/sql-lexer.js:444-562 | every other character is an empty name that makes no progress |
| SqlGrammar.ExprsOrdered | sql/parser/mysql-parser.js:291-345 | the select expressions of an accepted list are in order, apart and inside the list, and each name lies inside its expression |
| SqlGrammar.SelectSpans | sql/parser/mysql-parser.js:167-220 | every accepted select is well spanned: expressions in order, then the limit clause, all inside the statement |
| SqlGrammar.ParsedTextIsCovered | sql/parser/mysql-parser.js:90-145 | for every accepted text the statements are in order, and the text outside them is only blanks, comments and at most one final semicolon |
| SqlGrammar.StatementsApart | sql/parser/mysql-parser.js:90-145 | any two statements of an accepted text are not empty, in order and disjoint |
| SqlGrammar.LimitAcceptsIff | sql/parser/mysql-parser.js:222-289 | the clause parser accepts exactly `a`, `a, b` and `a offset b` in any layout, with rows and offset (a,0), (b,a) and (a,b) and exact unbounded values |
| SqlGrammar.LimitFormParses | sql/parser/mysql-parser.js:222-289 | each of the three forms, however laid out, is parsed to its rows and offset |
| SqlStatementEnds.LimitedFromIff | sql/parser/mysql-parser.js:167-220 | a statement whose limit clause is read up to k is accepted exactly when only filler is left before the end of the text or a `;`, which it takes in |
| SqlStatementEnds.BehindLimitIff | sql/parser/mysql-parser.js:90-220 | which texts go on behind a limit clause: those that end there, and those with a `;` and an accepted text behind it |
| SqlStatementEnds.StatementBehindLimit | sql/parser/mysql-parser.js:222-289 | a statement directly behind `limit 1;` is refused, behind `limit 1;;` it is accepted |
| SqlPrograms.ProgramParses | sql/parser/mysql-parser.js:90-471 | statements written out, with any blanks, quotes and scopes and any form of LIMIT, parse to exactly what was written: names, quotes, scopes, numbers and the span of every part |
| SqlPrograms.ListParses | sql/parser/mysql-parser.js:291-345 | a written list of user and system variables is read item by item, each at its place |
| SqlPrograms.ItemParses | sql/parser/mysql-parser.js:347-428 | `@name` and `@@name`, quoted or not, with SESSION or GLOBAL in front or not, are the variable they name |
| SqlPrograms.VersionComment | sql/parser/mysql-parser.js:347-395 | `select @@version_comment limit 1` is a select of that variable, one row, with these spans |
| SqlPrograms.NameAtIff | sql/parser/mysql-parser.js:430-471 | an identifier is accepted exactly when it has at most the length of its kind (256 an alias, 16 a label, 80 a user, 128 a role, 64 any other), does not end with a blank where it must not, and is not reserved unless a dot follows |
| SqlPrograms.BlockCommentRead | sql/parser/mysql-parser.js:90-145 | a comment between `/*` and `*/` without a star in it is passed over and kept, with its span, for the statement behind it |
| SqlPrograms.LineCommentRead | sql/parser/mysql-parser.js:90-145 | so is a comment behind `--`, `//` or `#`, up to its line break |
| SqlPrograms.OneMoreSemicolon | sql/parser/mysql-parser.js:90-145 | blanks and one semicolon may end the text; a semicolon with anything behind it is refused where a statement should begin |
| SqlPrograms.OtherWordRefused | sql/parser/mysql-parser.js:90-145 | a statement that begins with another word than SELECT is refused at that word |
| SqlPrograms.PlainNameRefused | sql/parser/mysql-parser.js:291-345 | a list that begins with a plain name is refused at that name |
| SqlPrograms.OtherSignRefused | sql/parser/mysql-parser.js:291-345 | behind a variable any sign but a comma or a semicolon is not implemented |
| MysqlParsing.ParseHelper.Parse | sql/parser/mysql-parser.js:90-145 | the parser object accepts and rejects what the grammar does, with the same error, and builds one object tree a statement, sharing no node; it ends at the end of the text, on no line past the newlines in it |
| MysqlParsing.ParseHelper.ParseSelect | sql/parser/mysql-parser.js:167-220 | a statement object with the spans the grammar gives and its children in order |
| MysqlParsing.ParseHelper.ParseSelectExprs | sql/parser/mysql-parser.js:291-345 | the loop adds exactly the expressions of the list to the statement, in order |
| MysqlParsing.ParseHelper.ParseSelectLimit | sql/parser/mysql-parser.js:222-289 | the limit object has the clause's span and numbers |
| MysqlParsing.ParseHelper.ParseSysVarExpr | sql/parser/mysql-parser.js:347-395 | a system variable with its optional scope, spanned from `@@` |
| MysqlParsing.ParseHelper.ParseUserVarExpr | sql/parser/mysql-parser.js:397-428 | a user variable, quoted or not, spanned from `@` |
| MysqlParsing.ParseHelper.ParseIdentifier | sql/parser/mysql-parser.js:430-471 | a name of at most the length its kind allows, that is not reserved unless a dot follows, quotes taken off |
| SqlQuoting.EscapeAll | sql/sql-object.js:162-201 | the index loop over a whole text doubles every quote that is not already one of a pair |
| SqlQuoting.Escape | sql/sql-object.js:162-201 | a range is escaped behind the untouched left part, and the right part survives exactly when it is empty |
| SqlQuoting.EscapedRun | sql/sql-object.js:162-201 | each maximal run of quotes is rounded up to even length and nothing else changes |
| SqlQuoting.EscapedIdempotent | sql/sql-object.js:162-201 | escaping twice is escaping once |
| SqlQuoting.CollapsedEscapedIff | sql/sql-object.js:162-201 | collapsing doubled quotes gives the text back exactly when it had no two adjacent quotes |
| SqlQuoting.CloseAfterEscaped | sql/parser/sql-lexer.js:318-383 | behind any escaped text the lexer finds the closing quote exactly at its end, or stops at a NUL in an identifier |
| SqlQuoting.LiteralIsOneString | sql/sql-object.js:120-128 | a rendered string value lexes back, in any surroundings, as exactly one string token |
| SqlQuoting.AliasReadsBackIff | sql/sql-expr.js:34-55 | a rendered alias lexes back as exactly one quoted name if and only if the quote is not `[` and the name has no NUL |
| SqlTree.FlattenInOrder | sql/sql-object.js:262-274 | the outermost replacements of nested spans are in order and inside |
| SqlTree.SpliceComposes | sql/sql-object.js:131-154 | one pass over the collected replacements equals rendering the tree child by child, however deep the replacements are |
| SqlTree.RenderedIsComposed | sql/sql-object.js:104-156 | rendering a nested tree in one pass is rendering it child by child |
| SqlTree.OrderedNeverRefused | sql/sql-object.js:139-142 | replacements in order are never refused as out of order |
| SqlTree.ShortenedSplice | sql/sql-object.js:131-154 | pieces whose texts are prefixes of others splice to the same text exactly when all are the same |
| SqlObjects.SqlObject.CollectReplaces | sql/sql-object.js:262-274 | the recursion collects exactly the outermost replaced objects, in order |
| SqlObjects.SqlObject.ToSql | sql/sql-object.js:104-156 | the text is the source with the outermost replaced spans rendered, those objects are marked rewritten and no other object changes |
| SqlObjects.SqlObject.ReplacedSql | sql/sql-object.js:105-128 | a value renders as its text or as a quoted escaped literal, NaN and every BigInt are refused, and the alias is kept |
| SqlObjects.SqlObject.AppendAlias | sql/sql-expr.js:34-55 | a rewritten, unnamed select expression gets its own source text as its name, once |
| SqlObjects.SqlObject.Sql | sql/sql-object.js:59-66 | the cached text when there is one, else the rendering, which is then cached |
| SqlObjects.OutermostFlattens | sql/sql-object.js:262-274 | what the heap recursion collects is the flattened tree of the objects |
| SqlObjects.StatementText | sql/sql-object.js:104-156 | a statement over nested children renders as its source with every child in place, is never out of order, and is its own source slice without replacements |
| SqlObjects.RenderTwice | sql/sql-object.js:104-156 | a second rendering gives the same text exactly when the first named no expression |
| SqlObjects.QueryAndColumns | sql/sql-expr.js:20-55 | the text sent, the column names asked for after it and again with each row: the source texts of the expressions whatever is replaced among them; where the whole statement was replaced, an expression with a value is named by its rendering first and by its source text from then on |
| SqlRewriting.ParsedSpansNest | sql/parser/mysql-parser.js:167-220 | the child spans of any parsed statement are ordered, disjoint and inside it |
| SqlRewriting.Render | sql/sql-object.js:59-156 | running a parsed statement gives its source with exactly the visitor's replacements in place, can never report children out of order, and names its columns, in the head and with each row, by the grammar's spans |
| SqlRewriting.Rewrite | sql/parser/mysql-parser.js:44-56 | from text to texts and column names: fails as the grammar does, or runs every statement of the text so |
| SqlRewriting.UnreplacedStatement | sql/sql-object.js:131-154 | without replacements a statement is its exact source slice |
| SqlRewriteTexts.ValueTexts | sql/sql-object.js:105-128 | the text of each kind of value: true and false, numbers as they are, timestamps and strings in single quotes with a single quote doubled |
| SqlRewriteTexts.ExprReplaced | sql/sql-expr.js:34-55 | a replaced variable becomes its value, ` as ` and its own source text in identifier quotes, between the unchanged rest of the statement |
| SqlRewriteTexts.LimitReplaced | sql/sql-object.js:104-156 | a replaced limit clause becomes its value without a name, between the unchanged rest |
| SqlRewriteTexts.StatementReplaced | sql/sql-object.js:104-156 | a statement with a limit clause that is replaced itself is its value alone |
| MysqlMessages.LengthRoundTrip | net/mysql/mysql-message.js:93-123 | for all 0 <= n < 2^63 and any surroundings, writing then reading a length gives n and moves by the announced size; an encoding never begins with 251 or 255 |
| MysqlMessages.ColumnRoundTrip | net/mysql/mysql-message.js:196-206 | a column reads back as it was, NULL and empty apart |
| MysqlMessages.RowRoundTrip | net/mysql/row-packet.js:50-65 | a row's payload decodes, wherever it lies, to the same columns and stops at its end |
| MysqlMessages.MysqlMessage.ReadLength | net/mysql/mysql-message.js:93-123 | every mark byte is read as the protocol says, the position moved accordingly |
| MysqlMessages.MysqlMessage.ReadBytesWithLength | net/mysql/mysql-message.js:196-206 | NULL, empty or the bytes announced |
| MysqlMessages.MysqlMessage.ReadRow | net/mysql/mysql-message.js:196-206 | the loop reads the columns the decoder defines |
| WireBytes.LengthBytes | net/mysql/mysql-message.js:269-321 | a length below 251 is one byte; 252, 253 and 254 stand before two, three and eight bytes, least significant first |
| WireBytes.LengthReads | net/mysql/mysql-message.js:93-123 | what every first byte means to the reader, 255 and a negative eight-byte length with it |
| WireBytes.ValueBytes | net/mysql/mysql-message.js:329-343 | NULL is the byte 251, an empty value the byte 0, any other its length and its bytes |
| WireBytes.ValueReads | net/mysql/mysql-message.js:196-206 | NULL, empty, an error or exactly the bytes announced, by the length read |
| Framing.FramesRoundTrip | frontend/handler/front-read-handler.js:45-113 | what was framed at any limit M is reassembled exactly, leaving what follows, if and only if it is within the reader's limit, and refused otherwise |
| Framing.PacketIff | frontend/handler/front-read-handler.js:45-113 | a packet is delivered exactly from full frames ended by one that is not, with a total within the limit |
| Framing.ReadUnCompressed | frontend/handler/front-read-handler.js:45-113 | the loop returns the first header and all payloads with length 4 + total, stops before the payload that would pass the limit and closes, and ends on every finite input |
| RowPackets.RowPacket.CalcPayloadLength | net/mysql/row-packet.js:50-65 | the length announced is the number of bytes the columns take |
| RowPackets.RowPacket.WriteColumn | net/mysql/row-packet.js:90-139 | a column's length and bytes, or one byte for NULL or empty, or an error when they do not fit |
| RowPackets.RowPacket.Write | net/mysql/row-packet.js:67-166 | the code as it stands: when it succeeds, when it fails and with which error, and the one header and the columns it emits |
| RowPackets.WriteFramesIff | net/mysql/row-packet.js:67-166 | that output is a proper frame sequence exactly when it fits the buffer and is shorter than a full frame |
| RowPackets.FrameWriter.WriteBytes | net/mysql/row-packet.js:97-126 | splits a value over as many frames as it takes, flushing on the way; the check that a split frame is a full one never fails |
| RowPackets.RowPacket.WriteSplit | net/mysql/row-packet.js:67-166 | as meant: from any offset and for any row the bytes emitted are full frames and a shorter last one with consecutive ids, and the next id is counted |
| RowPackets.RowDelivered | frontend/handler/front-read-handler.js:45-113 | a row framed, reassembled and decoded behind the header gives the same columns, exactly within the reader's limit |
| RowPackets.FramesHaveHeader | net/mysql/row-packet.js:67-166 | framing adds four bytes for each frame |
| WireBytes.HeaderBytes | buffer/buffer-helper.js:6-28 | a header is three length bytes, least significant first, and the id modulo 256 |
| WireBytes.FrameAt | net/mysql/row-packet.js:67-166 | frame i of a framed payload begins at i * (M + 4) with its size and, as fourth byte, the id i further modulo 256, and holds exactly the bytes from i * M on |
| Compression.ConcatOfSplit | util/compress-helper.js:82-95 | splitting at the declared lengths loses and moves no byte, whatever the headers say |
| Compression.SplitOfConcat | util/compress-helper.js:82-95 | splitting joined packets gives exactly the packets |
| Compression.SplitPackets | util/compress-helper.js:82-95 | the loop slices at the declared lengths and always ends |
| Compression.CompressMysqlPacket | util/compress-helper.js:32-67 | header and body on both sides of the threshold, and when it fails |
| Compression.DecompressMysqlPacket | util/compress-helper.js:15-30 | the payload unsplit, or the packets of the inflated payload |
| Compression.CompressionRoundTrip | util/compress-helper.js:15-67 | decompressing gives the original bytes on both sides of the threshold, and on the compressed side exactly the packets, as long as the three-byte lengths fit |
| Compression.UncompressedIsJoined | util/compress-helper.js:15-67 | below the threshold the same list comes back exactly when it had one packet |
| Compression.CompressedHeader | util/compress-helper.js:32-67 | the seven header bytes: the length of what follows, the first packet's own id, and the length before compression, 0 below the threshold |
| ResultSets.FieldLength | net/mysql/field-packet.js:54-66 | a field packet announces exactly the bytes it writes, whichever of its values are set |
| ResultSets.HeaderLength | net/mysql/result-set-header-packet.js:54-61 | a result-set header announces exactly the bytes it writes, with or without the extra number |
| ResultSets.WriteHead | backend/handler/single-node-handler.js:60-83 | header, one packet a column and the end marker with ids from 1, at the offset that is the sum of their sizes; without a row the first column throws |
| ResultSets.SendResultSet | backend/handler/single-node-handler.js:49-106 | the whole stream is sent or nothing is, and, while the write buffer can be enlarged, it is sent exactly when there is a row and the rows fit the buffer the head left; the offset returned is the number of bytes sent |
| ResultSets.StreamRoundTrip | backend/handler/single-node-handler.js:49-106 | a stream of packets with consecutive ids is read back packet by packet |
| ResultSets.ResultSetArrives | backend/handler/single-node-handler.js:49-106 | a client reads head, rows and end marker in this order, and the rows decode to the values sent |
| ResultSets.OrNullKeepsIff | backend/handler/single-node-handler.js:88-96 | the values sent are the values of the row exactly when none is empty |
| WireBytes.PacketAt | backend/handler/single-node-handler.js:49-106 | the k-th packet of a stream begins behind the packets before it with its own size and, as fourth byte, the id k further modulo 256, and its payload follows |
| WireBytes.ColumnPacketReads | net/mysql/field-packet.js:68-97 | a client reads catalog, database, table, original table, name and original name out of a column packet, in this order, then 0x0c, character set, width, type, flags, decimals, two zeros, and the default value if there is one |
| WireBytes.PayloadsRead | backend/handler/single-node-handler.js:49-106 | the first packet is read as the number of columns, both end markers are [0xfe, 0, 0, 2, 0], and every column and row stands in its place |
| WireBytes.OrNullAt | backend/handler/single-node-handler.js:88-96 | each value that is missing or empty is sent as NULL, any other as itself |
| BufferPools.NextKeepsSound | buffer/buffer-pool.js:48-117 | every step keeps the counter equal to the outstanding lengths and within the pool, and lets nobody sleep whose request fits |
| BufferPools.RunKeepsSound | buffer/buffer-pool.js:48-117 | so in every run of any coroutines |
| BufferPools.ReleasedForGood | buffer/buffer-pool.js:106-117 | once released, a buffer is never counted again: in every run another release changes nothing and says so |
| BufferPools.GridlockForever | buffer/buffer-pool.js:87-102 | waiting coroutines that each ask for more than is left beside all they have are never granted anything, in any run |
| BufferPoolRuns.StuckIff | buffer/buffer-pool.js:48-117 | some run grants one of the waiting requests exactly when they are not gridlocked all together |
| BufferPoolRuns.CanBeGrantedIff | buffer/buffer-pool.js:48-117 | a waiting request can be granted in some run exactly when it is in no gridlock |
| BufferPoolRuns.TwoGrowsGridlock | buffer/buffer-pool.js:87-102 | reached from the start: two owners who each want a second chunk for their buffer out of a pool of three wait for ever |
| BufferPoolRuns.TwoFreshGridlock | buffer/buffer-pool.js:48-74 | reached from the start: two owners who fill a pool of two and each want another buffer wait for ever |
| BufferPools.SharedBufferMiscounts | buffer/buffer-pool.js:87-117 | for every buffer released while its growing waits: the request wakes, when it is granted, and by how much the counter is then too high |
| BufferPools.RoundedIsLeast | buffer/buffer-pool.js:48-54 | a new buffer's size is the least positive number of whole chunks that holds the request |
| BufferPools.BufferPool.Allocate | buffer/buffer-pool.js:48-74 | allocation up to its wait does exactly the specified step |
| BufferPools.BufferPool.Resize | buffer/buffer-pool.js:76-104 | resizing up to its wait does exactly the specified step |
| BufferPools.BufferPool.Release | buffer/buffer-pool.js:106-117 | release does exactly the specified step |
| BufferPoolSteps.AllocateEffect | buffer/buffer-pool.js:48-74 | which of its four answers an allocation gets, and the one buffer and the count it adds when it is granted |
| BufferPoolSteps.ResizeEffect | buffer/buffer-pool.js:76-104 | a buffer that shrinks or is not counted is always resized, a counted one grows exactly when it fits; then it has the new length, the counter moves by the difference if it is counted, and no other buffer changes |
| BufferPoolSteps.ReleaseEffect | buffer/buffer-pool.js:106-117 | only a counted buffer is released: its length leaves the counter and everybody who sleeps is woken |
| BufferPoolSteps.RetryEffect | buffer/buffer-pool.js:56-104 | a woken request is granted exactly when it fits by now, with the effect it asked for |
| BufferPoolSteps.RetryIsResize | buffer/buffer-pool.js:87-104 | a grow that looks again does what it would do if it were asked for only now |
| BufferPoolSteps.ReleaseUndoes | buffer/buffer-pool.js:48-117 | releasing a new buffer gives back exactly what it took |
| BufferPoolSteps.ResizeBack | buffer/buffer-pool.js:76-104 | giving a buffer its old size back leaves the pool as it was up to the sleepers woken, and exactly when that way back is granted |
| DataSources.FindNoneIff | backend/data-source/physical-data-source.js:277-295 | the search gives up exactly when every list of every queue is empty |
| DataSources.NextKeepsSound | backend/data-source/physical-data-source.js:98-171 | every step keeps each connection in one place, and the counters equal to what they count |
| DataSources.RunsAreExclusive | backend/data-source/physical-data-source.js:98-171 | in every run a connection is in at most one queue, at most once, never idle while a client has it, never with two clients, and the count never passes the size |
| DataSourceRuns.SleeperServedIff | backend/data-source/physical-data-source.js:113-146 | a sleeping client can come to create a connection in some run exactly when the pool is not full or a creation is still under way, which may fail |
| DataSourceRuns.SleeperBesideIdle | backend/data-source/physical-data-source.js:113-126 | reached from the start: a client sleeps beside an idle connection, and no run lets it create one |
| DataSourceRuns.ServedIff | backend/back-connection.js:95-111 | a client can be given a connection in some run exactly when fewer connections died than the pool may have |
| DataSourceRuns.UsedUpIsReached | backend/back-connection.js:95-111 | a pool that can serve nobody any more is reached from the start |
| DataSources.PhysicalDataSource.SeekConn | backend/data-source/physical-data-source.js:206-228 | the shift loops take the first connection in the order of visits, or count a new one, or sleep |
| DataSources.PhysicalDataSource.GetConnection | backend/data-source/physical-data-source.js:98-126 | the step up to the first wait |
| DataSources.PhysicalDataSource.AfterCheck | backend/data-source/physical-data-source.js:98-112 | a live connection is borrowed; a dead one is dropped and the search goes on |
| DataSources.PhysicalDataSource.ReserveConn | backend/data-source/physical-data-source.js:113-131 | the last check and the count with no wait between them |
| DataSources.PhysicalDataSource.ReleaseConn | backend/data-source/physical-data-source.js:156-171 | the connection goes to the end of the list of its schema and commit mode |
| DataSourceSteps.SeekOwn | backend/data-source/physical-data-source.js:206-295 | a client gets the oldest connection of its own schema and commit mode if there is one, else the oldest of its schema |
| DataSourceSteps.SeekOther | backend/data-source/physical-data-source.js:277-295 | only when its own queue is empty one of the first other queue that has any, of its own commit mode before the other |
| DataSourceSteps.SeekNone | backend/data-source/physical-data-source.js:98-131 | only when all queues are empty it counts a new connection, if there is room, or sleeps |
| DataSourceSteps.AcquireOwn | backend/data-source/physical-data-source.js:267-275 | a client's own queue is the only one of its schema's name, made when there is none |
| DataSourceSteps.BorrowEffect | backend/data-source/physical-data-source.js:98-112 | a live connection is lent under the schema asked for, and only the count of lent ones rises |
| DataSourceSteps.GiveBackEffect | backend/data-source/physical-data-source.js:156-171 | a connection given back goes behind all others of the list of its schema and of the commit mode it was left in, and stays counted |
| DataSourceSteps.ReturnedIsReused | backend/data-source/physical-data-source.js:98-171 | the next client of that schema and mode gets it, unless older ones wait in that list |
| DataSourceSteps.CreateEffect | backend/data-source/physical-data-source.js:128-151 | a creation that fails gives both counts back, one that succeeds changes neither |
| DataSourceSteps.PrepareEffect | backend/data-source/physical-data-source.js:128-151 | a first statement that fails gives both counts back, one that succeeds leaves the connection with its client |
| DataSourceSteps.WakeEffect | backend/data-source/physical-data-source.js:113-126 | a sleeper looks at the room alone, and takes nothing out of a queue |
| Schedulers.NextKeepsSound | util/scheduler.js:72-146 | every step keeps the records of runs exact and the phases of each task in order |
| Schedulers.RunsDoNotOverlap | util/scheduler.js:72-121 | in every run the recorded coroutines are exactly the active runs, and without concurrency no two runs of one schedule call overlap |
| Schedulers.CancelStopsIff | util/scheduler.js:127-146 | after a cancel, awaited or not, no run of the task starts in any run of the scheduler, exactly when it did not come during the first run of a periodic task |
| Schedulers.AwaitedCancelIsFinal | util/scheduler.js:127-146 | an awaited cancel outside that case returns only when no run of the task is active, and none ever starts |
| Schedulers.EndingForGood | util/scheduler.js:72-146 | a task that can start no run never starts one in any run |
| SchedulerNames.NamesKeptIff | util/scheduler.js:72-146 | where every armed timer is registered, a step keeps it so exactly when it is neither the end of a first run nor the end of an awaited cancel whose name an armed timer has |
| SchedulerNames.NamesKeptAlongIff | util/scheduler.js:72-146 | so along every run |
| SchedulerNames.FinishUnregistersLater | util/scheduler.js:108-114 | reached from the start: the end of a first run leaves a later timer armed and unregistered |
| Schedulers.CancelUnregistersLater | util/scheduler.js:127-146 | reached from the start: the end of an awaited cancel does the same |
| Schedulers.ShutdownSilencesIff | util/scheduler.js:148-168 | after a shutdown nothing starts in any run of the scheduler, exactly when every armed timer was still registered and no periodic task was in its first run |
| SchedulerShutdown.AwaitedShutdownIff | util/scheduler.js:148-168 | whenever a shutdown that waits has returned nothing ever starts, in any run and for any order of the registry, exactly when one that does not wait would be final and every armed timer it comes to after its first wait is safe: no periodic task before its first run, and no ending task and no waiting cancel has its name |
| SchedulerShutdown.WaitingIsWorse | util/scheduler.js:148-168 | reached from the start: a state where a shutdown that does not wait is final and one that waits is not |
| SchedulerShutdown.ShutdownAwait | util/scheduler.js:148-168 | closes the scheduler and turns the timers off one by one up to the first with an active run, which it asks to end and joins |
| SchedulerShutdown.OnSwept | util/scheduler.js:148-168 | behind a joined run the walk joins the next run of that timer or goes on, and empties the registry at its end |
| Schedulers.Scheduler.CancelEach | util/scheduler.js:148-168 | the loop turns every registered timer off, empties the registry and, for a shutdown, closes the scheduler |
| Schedulers.Scheduler.OnFinish | util/scheduler.js:86-112 | the end of a run takes it off its record and, after the first run, makes the interval or takes the name off |
| Schedulers.Scheduler.OnInterval | util/scheduler.js:90-99 | a tick starts a run exactly when the last is over or runs may overlap |
| Schedulers.Scheduler.Cancel | util/scheduler.js:127-146 | the cancel up to its first wait |
| SchedulerSteps.ScheduleEffect | util/scheduler.js:37-121 | a task is refused exactly when the scheduler is closed or has one of that name; else there is one more armed timer and the name is taken |
| SchedulerSteps.FireEffect | util/scheduler.js:72-84 | a first timer that goes off is spent and starts one run, which is recorded |
| SchedulerSteps.TickEffect | util/scheduler.js:90-99 | an interval starts a run exactly when runs may overlap or no run of it is active, and else changes nothing |
| SchedulerSteps.FinishEffect | util/scheduler.js:84-114 | a run that is over leaves its record and nothing else; a periodic task's first one makes an armed interval under its name, another task's frees the name |
| SchedulerSteps.CancelEffect | util/scheduler.js:127-146 | a cancel turns its timer off and frees the name, at once or, when it waits, once no run of it is active; the run it waits for is asked to end |
| SchedulerSteps.ResumeEffect | util/scheduler.js:134-143 | a waiting cancel whose run is over asks the next active run to end, or is done |
| SchedulerSteps.CancelAllEffect | util/scheduler.js:148-163 | exactly the registered timers are off, every name is free and no run has changed |
| SchedulerSteps.OneShotLife | util/scheduler.js:72-121 | a task without a period runs once, is recorded while it runs, and leaves the registry as it was |
| SchedulerSteps.PeriodicFirst | util/scheduler.js:72-121 | a periodic task begins like any other, and the end of its first run makes its interval |
| SchedulerSteps.PeriodicAgain | util/scheduler.js:86-112 | each time round the interval starts a run, another meanwhile only if runs may overlap, and is at the end as it was before |
| SchedulerSteps.VisitStops | util/scheduler.js:148-163 | a shutdown that waits stops behind the first timer with an active run: those before it and that one are off, the run is asked to end, all others are untouched |
| FrontSessions.SessionsAreGuarded | handler/index.js:127-171 | in every session commands and queries are handled only after a login that passed every check and before any close, by the session or by another coroutine during a read, an answer or a query; a query only out of a command, and nobody logs in twice |
| FrontSessions.AuthenticatedIff | frontend/handler/front-auth-handler.js:20-100 | a client is authenticated exactly when the first packet that is looked at is a login for the server's own plugin that passes every check |
| FrontSessions.WalkOutside | frontend/handler/front-auth-handler.js:20-100 | before the login a packet logs in or ends the session, and no other handler sees it |
| FrontSessions.WalkInside | handler/index.js:127-171 | after the login no packet reaches the authentication handler |
| FrontSessions.FrontConnection.DoInvoke | handler/index.js:127-171 | the walk over the live chain hands each handler what the one before returned and stops where nothing is returned |
| FrontSessions.FrontConnection.RemoveHandler | handler/index.js:81-110 | the first occurrence is spliced out of the chain |
| FrontSessions.FrontConnection.Run | frontend/handler/front-read-handler.js:17-35 | the read loop serves packets until the connection is closed or something throws; what a read delivers while the connection is closed meanwhile is not looked at |
| FrontReplies.CommandReply | frontend/handler/front-cmd-handler.js:15-50 | of a logged-in client, exactly command 3 is handed on as a query, with its text, exactly command 1 closes, and every other command is answered at once |
| FrontReplies.DisturbedReply | frontend/handler/front-cmd-handler.js:15-50 | what is left of a reply whose wait throws or during which the connection is closed |
| FrontReplies.LoginReply | frontend/handler/front-auth-handler.js:20-172 | which reason a login is refused with, exactly by the first check it fails: access, number of connections, schema; one that passes all is answered and the handler leaves the chain |
| FrontReplies.DisturbedLogin | frontend/handler/front-auth-handler.js:92-124 | a login that passes counts even if its answer is not sent |
| FrontReplies.DisturbedRefusal | frontend/handler/front-auth-handler.js:130-140 | a refusal whose sending throws leaves the connection open |
| FrontReplies.NoLoginReply | frontend/handler/front-auth-handler.js:20-60 | a packet that is no login for this server closes when it is the quit packet and throws else; it is never answered |
| FrontReplies.ReadsReply | handler/index.js:127-171 | however packets are cut into reads, each is answered in its turn, and the query handler gets the texts of the queries in their order |
| FrontReplies.SessionReplies | frontend/handler/front-read-handler.js:17-35 | the whole log and all queries of a session that logs in and does not quit |
| FrontReplies.BehindQuit | frontend/handler/front-read-handler.js:17-35 | what comes behind a quit is not looked at |
| FrontReplies.LastRead | frontend/handler/front-read-handler.js:17-35 | which reads end a session, and whether it is closed, thrown, or both |
| DecimalParser.ParseDecimal | util/type-helper.js:64-163 | trimmed or not, the automaton accepts exactly the decimal format, or for integers exactly the integer format with a safe magnitude, and returns that integer |
| DecimalParser.DecimalIff | util/type-helper.js:69-73 | the documented format, as a sign and two parts, is what a scan from the left finds |
| DecimalParser.DecimalByChars | util/type-helper.js:64-163 | a text is a decimal exactly when, but for one sign in front, it has only digits and at most one point, and at least one digit |
| DecimalParser.IntegerByChars | util/type-helper.js:64-163 | and an integer exactly when it has only digits, and at least one |
| DecimalParser.SignedValueIs | util/type-helper.js:64-163 | the value of digits is read from the left, ten times what is before and the last digit, and a minus turns it round |
| DataNodes.SplitJoins | util/string-splitter.js:68-96 | splitting gives one piece more than there are separators, none containing one, and joining gives the text back |
| DataNodes.JoinSplits | util/string-splitter.js:68-96 | the pieces of a text are the only ones without separators that join to it |
| Texts.TrimCuts | util/string-splitter.js:68-96 | trimming cuts all white space off both ends and nothing else; what is left is empty exactly for white space alone |
| NodeTexts.SpaceIff | util/string-splitter.js:68-96 | the twenty-five characters trimming takes for white space |
| NodeTexts.PaddedPieces | util/string-splitter.js:68-96 | pieces around a separator, with any white space around each, are what splitting with trimming gives |
| NodeTexts.RangeReads | util/string-splitter.js:27-66 | a written range is expanded to the names of its prefix and its numbers, both ends in, up or down, whatever white space stands around its parts |
| NodeTexts.BracketForms | util/string-splitter.js:45-58 | where the number stands with both brackets, the left one alone or none |
| NodeTexts.DocumentedRanges | util/string-splitter.js:5-20 | `db$1-3,db$10-11` is db1, db2, db3, db10 and db11, and `db$3-1` runs down |
| DataNodes.Enumerate | util/string-splitter.js:46-65 | the loops up and down give the distance plus one names, the k-th of them the k-th number from the first end |
| DataNodes.Range2 | util/string-splitter.js:27-66 | plain text, empty range, names or an error, as the pieces say, trimmed or not |
| DataNodes.Range3 | util/string-splitter.js:9-20 | the ranges of a list one behind the other, or the first error |
| DataNodes.MergeHostDatabases | config/loader/xml/xml-schema-loader.js:475-481 | the i-th pair is host i div d with database i mod d |
| DataNodes.DefinableIff | config/loader/xml/xml-schema-loader.js:483-497 | no node of a definition is refused exactly when its three lists are as they have to be |
| DataNodes.RefusalTells | config/loader/xml/xml-schema-loader.js:483-497 | a blank field is reported before anything else, a name in use before an unknown host |
| DataNodes.DefineNodes | config/loader/xml/xml-schema-loader.js:442-497 | accepted exactly when the counts match and are not 0, no name is blank, taken or repeated, and no host or database is blank and no host unknown; otherwise the error of the first node that is refused; the i-th name has the i-th pair |
| DataNodes.Distribute | config/loader/xml/xml-schema-loader.js:309-335 | the code as it stands drops repetitions and changes nothing else; an unknown name throws |
| DataNodes.DedupedIsSameIff | config/loader/xml/xml-schema-loader.js:309-335 | so the names stay as they are exactly when none is repeated |
| DataNodes.DistributeDealsIff | config/loader/xml/xml-schema-loader.js:309-335 | the result gives the hosts their turns exactly when, in the table, no host has had more turns before a new name of its own than the host of any new name further on |
| DataNodes.NotDealt | config/loader/xml/xml-schema-loader.js:309-335 | a table of three nodes that is not dealt out, and what the rounds by host make of it |
| DataNodes.DistributeByHost | config/loader/xml/xml-schema-loader.js:309-335 | as meant: the rounds end with a permutation that keeps the order of every host's names and gives no host its next name before every host that has one had its turn |

## Left out

- MysqlMessages.MysqlMessage.ReadBytesWithLength: a length the buffer cannot satisfy is reported as an error; what the original reader returns for the missing part is not specified by it.
- MysqlMessages.MysqlMessage.ReadRow: stands for the callers' column loops; the original reads columns one call at a time.
- RowPackets.RowPacket.WriteSplit: stands for what the flushing and splitting branches mean, not for what they do; the code as it stands is `RowPackets.RowPacket.Write`.
- RowPackets.FrameWriter.WriteBytes: part of the same intended writer.
- DataNodes.DistributeByHost: stands for the evident intent; the code as it stands is `DataNodes.Distribute`.
- ResultSets.SendResultSet: the write buffer is always enlarged when asked; the buffer pool refusing to grow it (net/connection.js:162-167, buffer/buffer-pool.js:97) is not modelled here.
- ResultSets.OrNullKeepsIff: values are bytes or missing; that `||` also turns the number 0 and `false` into NULL (backend/handler/single-node-handler.js:91) is not modelled.
- Compression.CompressMysqlPacket: called with a list of packets; the single buffer with an explicit length is not modelled.
- Compression.DecompressMysqlPacket: a payload shorter than announced is an error; the original returns a buffer whose rest is unset.
- DecimalParser.ParseDecimal: the float value itself is a library result, and numbers that are no text are not covered.
- Schedulers.Scheduler.CancelEach: without waiting; the waiting form is `SchedulerShutdown.ShutdownAwait`, for one waiting shutdown at a time beside any other steps.
- Schedulers.Scheduler.Cancel: a cancel issued from inside the task it cancels is not modelled, and neither are the checks of a task's delays.
- DataSources.PhysicalDataSource.AfterCheck: `closeConn` and `removeConn` are not modelled; a dead connection stays counted, as it does in the code.
- FrontSessions.FrontConnection.DoInvoke: only chains that are arrays of the three frontend handlers; functions, keyed objects and handlers returned as values do not occur there.
- Compressed reassembly over several frames (frontend/handler/front-read-handler.js:115-201): its carried-over packet does not settle what is intended.
- Password hashing, the privilege tables, charset tables and logging: foreign or tables only.
- Routing, load balancing and partition functions: placeholders in the repository.
- SQL statements other than select of variables with a limit clause: the parser has no others yet.
- Load-data mode of the command handler: its flag is never set.
