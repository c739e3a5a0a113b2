# A verified model of the hbusul Jack compiler

This project models the core of a one-pass compiler for the Jack teaching
language. The compiler reads a Jack class and writes the text of the Nand2Tetris
stack virtual machine. The model follows the Java classes of the compiler one by one:

- `JackTokenizer` (`jack_tokenizer.dfy`). The lexer, as a class over an input
  string with a reader position and a mark.
  - `hasMoreTokens` skips white space and comments.
  - `advance` reads one integer constant, string constant, symbol, keyword or
    identifier.
  - `mark`/`reset` save and restore the token state.
  - Each of its loops is proved against a function (`Skip`, `Scan`) whose
    properties are proved as lemmas.
- `KeywordType` (`keyword_type.dfy`). The reserved words as a datatype, in
  the declaration order of the enumeration.
- `SymbolTable` (`symbol_table.dfy`).
  - Per-kind counters give each symbol a dense index.
  - `((kind | type) << 24) | index` packs kind, type and index into one 32-bit
    value, which `getIndex`, `getKind` and `getType` decode again.
  - The table is a class whose methods update its counters and maps; a ghost
    history of insertions states what they hold.
- `VMWriter` (`vm_writer.dfy`). An append-only emitter of one text line per VM
  command. Each line reads back as the command that produced it.
- `BasicXMLWriter` (`basic_xml_writer.dfy`). The XML trace writer:
  - entity escaping, with its inverse;
  - a tag stack with an indentation counter.
- `CompilationEngine` (`compilation_engine.dfy`). The recursive-descent
  translator, as a class.
  - It holds the current token, the two symbol tables, the label counter and
    the emitter.
  - Each `compile*` method is proved to do exactly one of two things:
    - fail, exactly when the tokens do not form the phrase or a looked-up name
      does not resolve;
    - succeed, having consumed the phrase and appended its code.
- The methods' contracts name three pure layers:
  - `jack_parser.dfy`: the grammar the engine recognises, as functions over
    the token sequence. Each function yields the phrase as a tree (`jack_syntax.dfy`).
  - `code_gen.dfy`: the VM code of each tree, as a function of the tree, the
    two tables and the first free label number.
  - `declarations.dfy`: the insertions a class's declarations make into its
    tables, and the code of a whole class.
- `accepted_phrases.dfy` ties the grammar to the code layer: the statements
  and classes the grammar accepts are well formed, so the stack lemmas of
  `code_gen.dfy` hold for them.

The lemmas about these layers carry the compiler's promises:
- every label is defined once in a class's code;
- every well-formed expression leaves one value on the VM stack, and every
  well-formed statement leaves the stack as it found it;
- an identifier followed by a token that is not a symbol is stepped over as a
  term that writes nothing, but such a term never survives into an accepted
  statement: the body of every subroutine of an accepted class leaves the stack
  as it found it;
- each construct has the instruction shape the engine writes for it;
- the symbol-value encoding round-trips;
- escaping round-trips.

`Base` (`base.dfy`) holds `Option` (Java's `null`), the decimal text of
numbers and the UTF-16 code units of a string, which is what a Java string's
`length()` and `charAt` see.

The source and the behaviour usually described for it differ in one place; the
model follows the source. `mark` followed by `advance` and `reset` does not
always return the reader to where `mark` was called:
- `advance` itself re-marks the reader while it reads a digit or word run, and
  `hasMoreTokens` re-marks it too;
- `reset` returns to the last of these marks.

`JackTokenizer.ScanMark` states where `reset` lands. The engine only inspects the
token after an identifier and re-reads it. The translation is therefore
unaffected, and the engine models that look-ahead as a peek at the next token.

## Model

| member | source | states |
|---|---|---|
| Base.NatToString | src/io/github/hbusul/VMWriter.java:13-15 | the decimal text Java writes for a non-negative int: at least one digit, all digits, and no leading zero unless the number is 0 |
| Base.DecimalValueOfNatToString | src/io/github/hbusul/JackTokenizer.java:116-118 | reading the decimal text of a number back gives the number |
| JackTokenizer.IntValue | src/io/github/hbusul/JackTokenizer.java:116-118 | intVal gives a value no larger than 2^31 - 1, and none where Integer.valueOf throws |
| JackTokenizer.IntValueOfNatToString | src/io/github/hbusul/JackTokenizer.java:116-118 | the decimal text of every int from 0 to 2^31 - 1 reads back as that int |
| JackTokenizer.IntValueRange | src/io/github/hbusul/JackTokenizer.java:116-118 | 2147483647 is read as itself and 2147483648 is rejected |
| Base.NatToStringInjective | src/io/github/hbusul/VMWriter.java:13-15 | distinct numbers have distinct decimal texts |
| Base.CharUnits | src/io/github/hbusul/CompilationEngine.java:647-650 | a character is one UTF-16 code unit below 0x10000 and two (a surrogate pair) above it, each unit below 0x10000 |
| Base.Utf16 | src/io/github/hbusul/CompilationEngine.java:644-650 | the code units Java's `length()` counts and `charAt` returns: at least one and at most two per character |
| Base.Utf16RoundTrip | src/io/github/hbusul/CompilationEngine.java:644-650 | decoding the UTF-16 units of a string gives the string back |
| Base.Utf16Bmp | src/io/github/hbusul/CompilationEngine.java:644-650 | a string whose characters all lie below 0x10000 has one unit per character, its own code |
| KeywordTypes.FindKeywordFound | src/io/github/hbusul/JackTokenizer.java:124-133 | the keyword search returns a listed keyword whose lower-case name is the word, and returns none only when no listed keyword has that name |
| KeywordTypes.KeywordOfName | src/io/github/hbusul/JackTokenizer.java:124-133 | searching all keywords for the name of keyword k finds k |
| KeywordTypes.KeywordNamesDistinct | src/io/github/hbusul/KeywordType.java:3-25 | no two constants of the enumeration have the same lower-case name |
| KeywordTypes.KeywordNameIsWord | src/io/github/hbusul/KeywordType.java:3-25 | every keyword name is a run of at least two lower-case letters, so the lexer's word loop reads it whole |
| JackTokenizer.LineEnd | src/io/github/hbusul/JackTokenizer.java:43 | readLine stops within the input and moves forward whenever input remains |
| JackTokenizer.CommentEnd | src/io/github/hbusul/JackTokenizer.java:45-50 | the block-comment loop, when it ends, stops just after a closing star and slash that lie within the input |
| JackTokenizer.Skip | src/io/github/hbusul/JackTokenizer.java:34-61 | the position hasMoreTokens leaves the reader at never lies before where it started, nor past the end |
| JackTokenizer.SkipStopsAtTokenStart | src/io/github/hbusul/JackTokenizer.java:34-61 | hasMoreTokens stops at the end of the input or on a character that is neither white space nor the start of a comment; a lone slash is such a character |
| JackTokenizer.SkipIdempotent | src/io/github/hbusul/JackTokenizer.java:34-61 | a second hasMoreTokens does not move the reader |
| JackTokenizer.DigitRunEnd | src/io/github/hbusul/JackTokenizer.java:67-73 | the digit loop reads a maximal run of digits: all read characters are digits and the next one is not |
| JackTokenizer.WordRunEnd | src/io/github/hbusul/JackTokenizer.java:86-91 | the word loop reads a maximal run of letters, digits and underscores |
| JackTokenizer.QuoteFrom | src/io/github/hbusul/JackTokenizer.java:76-80 | the string loop stops at the first double quote at or after its start, and no quote lies before it; none is found only when no quote remains |
| JackTokenizer.ScanIntConst | src/io/github/hbusul/JackTokenizer.java:67-74 | a leading digit gives an integer constant whose text is the maximal digit run, stopping before the first non-digit |
| JackTokenizer.ScanStringConst | src/io/github/hbusul/JackTokenizer.java:75-81 | a leading double quote gives a string constant holding the characters up to the next quote, both quotes excluded, with the closing quote consumed and the mark untouched |
| JackTokenizer.ScanSymbol | src/io/github/hbusul/JackTokenizer.java:82-84 | a character of the symbol alphabet gives a one-character symbol token of that character; the reader moves one place on |
| JackTokenizer.ScanWord | src/io/github/hbusul/JackTokenizer.java:85-98 | any other start gives the maximal word run; it is a keyword exactly when it is the name of a keyword, and then keyword() is exactly that keyword; a word never starts with a digit |
| JackTokenizer.ScanValid | src/io/github/hbusul/JackTokenizer.java:63-102 | every token advance produces is well formed: symbols are one character of the alphabet, integer constants are digit strings, string constants hold no quote, keywords carry their keyword and identifiers are non-keyword words |
| JackTokenizer.ScanMark | src/io/github/hbusul/JackTokenizer.java:135-147 | where reset returns the reader after mark and one advance: to the marked position after a symbol or a string, to the end of the run after an integer constant or a word |
| JackTokenizer.ScanProgress | src/io/github/hbusul/JackTokenizer.java:63-102 | started on a character that can begin a token, advance moves the reader forward |
| JackTokenizerClass.Tokenizer.constructor | src/io/github/hbusul/JackTokenizer.java:23-28 | a fresh tokenizer is at the start of its input with no current token, token type or keyword |
| JackTokenizerClass.Tokenizer.Read | src/io/github/hbusul/JackTokenizer.java:65 | reader.read returns the character at the position and moves on, or returns none at the end without moving |
| JackTokenizerClass.Tokenizer.HasMoreTokens | src/io/github/hbusul/JackTokenizer.java:34-61 | the reader and its mark end at the position Skip gives, and the answer is true exactly when a character remains there |
| JackTokenizerClass.Tokenizer.ReadLine | src/io/github/hbusul/JackTokenizer.java:43 | the reader moves to where LineEnd says |
| JackTokenizerClass.Tokenizer.SkipBlockComment | src/io/github/hbusul/JackTokenizer.java:45-50 | the reader moves to just after the closing star and slash that CommentEnd finds |
| JackTokenizerClass.Tokenizer.IsKeyword | src/io/github/hbusul/JackTokenizer.java:124-133 | the answer is true exactly when the word is a keyword name; the current keyword becomes that keyword, and is left unchanged otherwise |
| JackTokenizerClass.Tokenizer.ReadDigitRun | src/io/github/hbusul/JackTokenizer.java:67-73 | the text read is the maximal digit run from the first digit, and the reader and the mark end just after it |
| JackTokenizerClass.Tokenizer.ReadStringRun | src/io/github/hbusul/JackTokenizer.java:76-80 | the text read is everything up to the next quote, and the reader ends just after that quote |
| JackTokenizerClass.Tokenizer.ReadWordRun | src/io/github/hbusul/JackTokenizer.java:86-91 | the text read is the maximal word run; the reader ends after it, or back at the earlier mark when the run is empty |
| JackTokenizerClass.Tokenizer.Advance | src/io/github/hbusul/JackTokenizer.java:63-102 | the reader, the mark, the current text, the token type and the keyword become those Scan gives, and the keyword is kept when the token has none |
| JackTokenizerClass.Tokenizer.Mark | src/io/github/hbusul/JackTokenizer.java:135-140 | the current text, token type and keyword are saved, and the reader is marked at its position |
| JackTokenizerClass.Tokenizer.Reset | src/io/github/hbusul/JackTokenizer.java:142-147 | the saved text, token type and keyword are restored, and the reader returns to its mark |
| SymbolTables.PackSum | src/io/github/hbusul/SymbolTable.java:73 | below 2^24 the bitwise or of the shifted kind and type bits with the index equals (kind bits + type bits) * 2^24 + index, since the fields do not overlap |
| SymbolTables.DecodeKind | src/io/github/hbusul/SymbolTable.java:111-117 | a value whose top nibble is one kind bit decodes to that kind, whatever the lower 28 bits hold |
| SymbolTables.DecodeType | src/io/github/hbusul/SymbolTable.java:119-125 | a value with one kind bit and one type bit above a 24-bit index decodes to that type |
| SymbolTables.DecodeSum | src/io/github/hbusul/SymbolTable.java:107-125 | getIndex, getKind and getType of (kind + type) * 2^24 + index recover the index, the kind and the type |
| SymbolTables.DecodePack | src/io/github/hbusul/SymbolTable.java:107-125 | decoding a value insertSymbol returns recovers the inserted index, kind and type, for an index below 2^24 |
| SymbolTables.PackIsNotNotFound | src/io/github/hbusul/SymbolTable.java:88-93 | no packed value is the pattern of -1, the not-found answer of getVal |
| SymbolTables.PackInjective | src/io/github/hbusul/SymbolTable.java:73 | two packed values are equal only when their types, kinds and indices are |
| SymbolTables.KindIndicesAreDense | src/io/github/hbusul/SymbolTable.java:51-72 | in any table, the indices given to the symbols of one kind are 0, 1, ..., N - 1, in insertion order |
| SymbolTables.CountKindGrows | src/io/github/hbusul/SymbolTable.java:51-72 | a later insertion of a kind sees strictly more earlier insertions of that kind |
| SymbolTables.DistinctInsertionsDistinctValues | src/io/github/hbusul/SymbolTable.java:73-75 | two distinct insertions into one table return distinct values, for indices below 2^24 |
| SymbolTables.InsertConsistent | src/io/github/hbusul/SymbolTable.java:31-76 | an insertion that takes the next index of its kind keeps the maps and the counters those of the insertion history |
| SymbolTables.SymbolTable.constructor | src/io/github/hbusul/SymbolTable.java:20-24 | a fresh table binds no name and records no class, and its four counters are 0, so getVal answers -1 for every name |
| SymbolTables.SymbolTable.NextIndex | src/io/github/hbusul/SymbolTable.java:51-72 | the index is the current counter of the kind; only that counter is bumped, and the maps are untouched |
| SymbolTables.SymbolTable.InsertSymbol | src/io/github/hbusul/SymbolTable.java:31-76 | the symbol gets the next index of its kind; the returned value packs type, kind and index; getVal of the symbol becomes that value and every other name keeps its value; a re-inserted name is overwritten and the counter still advances; only the kind's counter grows |
| SymbolTables.SymbolTable.InsertClassSymbol | src/io/github/hbusul/SymbolTable.java:26-29 | inserts a class-typed symbol as InsertSymbol does and records the class name under the returned value, so getClassName of that value gives it |
| SymbolTables.SymbolTable.NumberOfFields | src/io/github/hbusul/SymbolTable.java:95-97 | the number of FIELD insertions |
| SymbolTables.SymbolTable.NumberOfLocalVariables | src/io/github/hbusul/SymbolTable.java:99-101 | the number of LOCAL insertions |
| VMWriter.SegmentOf | src/io/github/hbusul/VMWriter.java:13-15 | a segment read from its name is the segment of that name |
| VMWriter.SegmentOfName | src/io/github/hbusul/VMWriter.java:13-15 | every segment name reads back as its segment |
| VMWriter.Render | src/io/github/hbusul/VMWriter.java:13-99 | one line per command |
| VMWriter.RenderReadsBack | src/io/github/hbusul/VMWriter.java:13-99 | every line of a rendered listing of well-formed commands reads back as the command at the same position, with mult and div read as their calls |
| VMWriter.RenderInjective | src/io/github/hbusul/VMWriter.java:13-99 | two listings of well-formed commands with the same lines have the same length and the same commands position by position, up to mult and div |
| VMWriter.RenderAppend | src/io/github/hbusul/VMWriter.java:13-99 | the output is append-only: the lines of a longer command sequence extend the lines of its prefix |
| VMWriter.ParsePush | src/io/github/hbusul/VMWriter.java:13-15 | the line push segment index reads back as that push |
| VMWriter.ParsePop | src/io/github/hbusul/VMWriter.java:17-19 | the line pop segment index reads back as that pop |
| VMWriter.ParseCall | src/io/github/hbusul/VMWriter.java:21-23 | the line call name n reads back as that call, for a name without spaces |
| VMWriter.ParseFunction | src/io/github/hbusul/VMWriter.java:97-99 | the line function name n reads back as that function header |
| VMWriter.ParseJumpLine | src/io/github/hbusul/VMWriter.java:84-90 | the lines label L, goto L and if-goto L read back as those commands; label is written at lines 34-36 |
| VMWriter.ParseArithmeticLine | src/io/github/hbusul/VMWriter.java:25-62 | neg, not, add, sub and and each write one line naming themselves, which reads back as that command |
| VMWriter.ParseComparisonLine | src/io/github/hbusul/VMWriter.java:30-78 | or, lt, gt, eq and return each write one line naming themselves, which reads back as that command |
| VMWriter.MultLine | src/io/github/hbusul/VMWriter.java:52-54 | mult writes exactly the line of call Math.multiply 2 |
| VMWriter.DivLine | src/io/github/hbusul/VMWriter.java:56-58 | div writes exactly the line of call Math.divide 2 |
| VMWriter.ParseMultDiv | src/io/github/hbusul/VMWriter.java:52-58 | the lines of mult and div read back as the two-argument calls they stand for |
| VMWriter.ParseLine | src/io/github/hbusul/VMWriter.java:13-99 | every well-formed command's line reads back as that command, with mult and div read as their calls |
| VMWriter.LineInjective | src/io/github/hbusul/VMWriter.java:13-99 | two well-formed commands write the same line only when they are the same command, once mult and div are read as their calls |
| VMWriterClass.Writer.constructor | src/io/github/hbusul/VMWriter.java:9-11 | a fresh emitter has written nothing |
| VMWriterClass.Writer.WritePush | src/io/github/hbusul/VMWriter.java:13-15 | appends exactly the push line and keeps every earlier line |
| VMWriterClass.Writer.WritePop | src/io/github/hbusul/VMWriter.java:17-19 | appends exactly the pop line and keeps every earlier line |
| VMWriterClass.Writer.WriteCall | src/io/github/hbusul/VMWriter.java:21-23 | appends exactly the call line |
| VMWriterClass.Writer.WriteFunction | src/io/github/hbusul/VMWriter.java:97-99 | appends exactly the function line |
| VMWriterClass.Writer.WriteLabel | src/io/github/hbusul/VMWriter.java:34-36 | appends exactly the label line |
| VMWriterClass.Writer.WriteGoto | src/io/github/hbusul/VMWriter.java:88-90 | appends exactly the goto line |
| VMWriterClass.Writer.WriteIfGoto | src/io/github/hbusul/VMWriter.java:84-86 | appends exactly the if-goto line |
| VMWriterClass.Writer.WriteAlloc | src/io/github/hbusul/VMWriter.java:92-95 | appends exactly push constant n, then call Memory.alloc 1 |
| VMWriterClass.Writer.WriteArithmetic | src/io/github/hbusul/VMWriter.java:25-82 | each zero-operand operation appends exactly its one line; mult and div append their calls |
| BasicXmlWriter.EscapedAppend | src/io/github/hbusul/BasicXMLWriter.java:60-80 | escape works character by character: escaping a concatenation concatenates the escapes |
| BasicXmlWriter.EscapedIdentity | src/io/github/hbusul/BasicXMLWriter.java:60-80 | a string without the five special characters is left unchanged |
| BasicXmlWriter.EscapedHasNoRaw | src/io/github/hbusul/BasicXMLWriter.java:60-80 | the escaped text holds no raw <, >, double quote or single quote |
| BasicXmlWriter.UnescapeEscaped | src/io/github/hbusul/BasicXMLWriter.java:60-80 | decoding the entities of the escaped text gives the original string back, so every other character is kept, in order |
| BasicXmlWriter.Spaces | src/io/github/hbusul/BasicXMLWriter.java:23-27 | indent writes as many spaces as the indent, and none when it is not positive |
| BasicXmlWriter.DepthPreserved | src/io/github/hbusul/BasicXMLWriter.java:29-53 | openTag, writeValue and any close that pops keep the indent at twice the depth of the tag stack; an opening tag is written after a newline (except the first) and as many spaces as the indent; closing fails as an empty stack exactly when no tag is open |
| BasicXmlWriter.NewlineBeforeLaterTags | src/io/github/hbusul/BasicXMLWriter.java:29-39 | a newline precedes every opening tag except the first one written |
| BasicXmlWriter.OpenCloseRestores | src/io/github/hbusul/BasicXMLWriter.java:29-53 | an open directly followed by its close succeeds and restores the stack and the indent; the close comes on a new line at the old indent |
| BasicXmlWriter.ValueThenCloseSameLine | src/io/github/hbusul/BasicXMLWriter.java:41-58 | after writeValue, the value is written between spaces and the closing tag stays on the same line |
| BasicXmlWriter.MismatchedClose | src/io/github/hbusul/BasicXMLWriter.java:41-53 | closing a tag other than the innermost open one fails as an incorrect close, after the closing text has been written and the stack popped |
| BasicXmlWriter.BalancedRestores | src/io/github/hbusul/BasicXMLWriter.java:29-53 | writing any tree of tags succeeds and leaves the stack and the indent as it found them |
| BasicXmlWriter.BalancedAllRestores | src/io/github/hbusul/BasicXMLWriter.java:29-53 | the same for a sequence of trees |
| BasicXmlWriterClass.XmlWriter.constructor | src/io/github/hbusul/BasicXMLWriter.java:16-21 | a fresh writer has written nothing, has no open tag, an indent of 0 and no tag written yet |
| BasicXmlWriterClass.XmlWriter.Indent | src/io/github/hbusul/BasicXMLWriter.java:23-27 | appends as many spaces as the indent |
| BasicXmlWriterClass.XmlWriter.OpenTag | src/io/github/hbusul/BasicXMLWriter.java:29-39 | the new state is the one openTag describes |
| BasicXmlWriterClass.XmlWriter.CloseTag | src/io/github/hbusul/BasicXMLWriter.java:41-53 | the new state and the outcome (closed, incorrect close, empty stack) are the ones closeTag describes |
| BasicXmlWriterClass.XmlWriter.Escape | src/io/github/hbusul/BasicXMLWriter.java:60-80 | the loop builds the escaped string |
| BasicXmlWriterClass.XmlWriter.WriteValue | src/io/github/hbusul/BasicXMLWriter.java:55-58 | the new state is the one writeValue describes |
| CodeGen.LabelNumberOf | src/io/github/hbusul/CompilationEngine.java:34-37 | the number a label name L n carries is n |
| CodeGen.LabelNameInjective | src/io/github/hbusul/CompilationEngine.java:34-37 | generateLabel's names L n are distinct for distinct n |
| CodeGen.TermHasNoLabels | src/io/github/hbusul/CompilationEngine.java:627-737 | the code of a term defines no label |
| CodeGen.ExprHasNoLabels | src/io/github/hbusul/CompilationEngine.java:582-599 | the code of an expression defines no label |
| CodeGen.CallHasNoLabels | src/io/github/hbusul/CompilationEngine.java:759-812 | the code of a subroutine call defines no label |
| CodeGen.StmtLabelsFresh | src/io/github/hbusul/CompilationEngine.java:137-292 | a statement whose first label is number n defines only the labels n up to n + (labels it draws) - 1, each once |
| CodeGen.WhileLabelsFresh | src/io/github/hbusul/CompilationEngine.java:137-158 | a while statement defines its two labels and those of its body, each once |
| CodeGen.IfLabelsFresh | src/io/github/hbusul/CompilationEngine.java:160-192 | an if statement without else defines its label and those of its branch, each once |
| CodeGen.IfElseLabelsFresh | src/io/github/hbusul/CompilationEngine.java:160-192 | an if-else defines its two labels and those of its branches, each once; the second label is drawn after the then-branch |
| CodeGen.SimpleLabelsFresh | src/io/github/hbusul/CompilationEngine.java:194-292 | let, do and return draw no label and define none |
| CodeGen.StmtsLabelsFresh | src/io/github/hbusul/CompilationEngine.java:294-321 | a statement sequence defines the labels it draws, each once |
| CodeGen.SubroutineLabelsFresh | src/io/github/hbusul/CompilationEngine.java:509-530 | a subroutine's code defines the labels its body draws, each once |
| CodeGen.CharsCodeSpells | src/io/github/hbusul/CompilationEngine.java:647-651 | one push of the code unit followed by one call String.appendChar 2 per UTF-16 code unit, in order |
| CodeGen.StringCodeSpells | src/io/github/hbusul/CompilationEngine.java:642-651 | a string constant whose Java `length()` is L is push constant L, call String.new 1, then one push and appendChar per UTF-16 unit in order |
| CodeGen.StringCodeDecodes | src/io/github/hbusul/CompilationEngine.java:642-651 | the constants appended after String.new decode, as UTF-16, back to the string constant |
| CodeGen.StringCodeSupplementary | src/io/github/hbusul/CompilationEngine.java:642-651 | a character above 0x10000 counts as two units and is appended as its surrogate pair |
| CodeGen.StringCodeBmp | src/io/github/hbusul/CompilationEngine.java:642-651 | when every character lies below 0x10000 the length pushed is the character count and each character's code is pushed |
| CodeGen.OpCodeEffect | src/io/github/hbusul/CompilationEngine.java:588-596 | every binary operator's code takes two values and leaves one |
| CodeGen.UnaryCodeEffect | src/io/github/hbusul/CompilationEngine.java:659-663 | a unary operator's code replaces the value on the stack |
| CodeGen.KeywordConstPushesOne | src/io/github/hbusul/CompilationEngine.java:631-638 | true, false, null and this each push one value |
| CodeGen.StringPushesOne | src/io/github/hbusul/CompilationEngine.java:642-651 | a string constant leaves one value, the string object |
| CodeGen.TermPushesOne | src/io/github/hbusul/CompilationEngine.java:627-737 | a well-formed term (no identifier stepped over) whose names resolve leaves exactly one value on the stack |
| CodeGen.ArrayReadPushesOne | src/io/github/hbusul/CompilationEngine.java:676-694 | an array read (base, index, add, pop pointer 1, push that 0) leaves one value |
| CodeGen.ExprPushesOne | src/io/github/hbusul/CompilationEngine.java:582-599 | a well-formed expression whose names resolve leaves exactly one value on the stack |
| CodeGen.ArgsPushOneEach | src/io/github/hbusul/CompilationEngine.java:739-757 | a well-formed expression list whose names resolve pushes one value per expression |
| CodeGen.CallPushesOne | src/io/github/hbusul/CompilationEngine.java:759-812 | the argument count of a call is the number of values pushed for it, the receiver included; the call leaves one value |
| CodeGen.ReceiverEffect | src/io/github/hbusul/CompilationEngine.java:764-805 | a receiver is pushed exactly for a method call: a variable qualifier found in a table, or no qualifier |
| CodeGen.StmtBalanced | src/io/github/hbusul/CompilationEngine.java:137-292 | a well-formed statement whose names resolve leaves the stack as it found it |
| CodeGen.DoBalanced | src/io/github/hbusul/CompilationEngine.java:268-275 | do pops the call's result into temp 0 and leaves the stack as it found it |
| CodeGen.ReturnBalanced | src/io/github/hbusul/CompilationEngine.java:277-292 | return with a value pushes it and return consumes it, so the statement leaves the stack as it found it |
| CodeGen.WhileBalanced | src/io/github/hbusul/CompilationEngine.java:137-158 | the test consumes the condition's value, so a while loop leaves the stack as it found it |
| CodeGen.IfBalanced | src/io/github/hbusul/CompilationEngine.java:160-192 | an if statement without else leaves the stack as it found it |
| CodeGen.IfElseBalanced | src/io/github/hbusul/CompilationEngine.java:160-192 | an if-else leaves the stack as it found it |
| CodeGen.LetBalanced | src/io/github/hbusul/CompilationEngine.java:242-262 | a scalar let pops its value into the variable |
| CodeGen.LetIndexedBalanced | src/io/github/hbusul/CompilationEngine.java:206-241 | an indexed let stores the address in temp 0 and the value in the element, leaving the stack as it found it |
| CodeGen.StmtsBalanced | src/io/github/hbusul/CompilationEngine.java:294-321 | a well-formed statement sequence whose names resolve leaves the stack as it found it |
| Declarations.Declare | src/io/github/hbusul/CompilationEngine.java:402-407 | a declaration makes one insertion per name and keeps the earlier insertions as they were |
| Declarations.SubsAppend | src/io/github/hbusul/CompilationEngine.java:341-344 | one more subroutine adds its code after the earlier ones' code, at the next free label |
| Declarations.SubsLabelsFresh | src/io/github/hbusul/CompilationEngine.java:341-344 | each subroutine of a class labels its code with numbers no other subroutine uses |
| Declarations.ClassLabelsFresh | src/io/github/hbusul/CompilationEngine.java:34-37 | no label is defined twice in a class's code: the counter starts at 0 and every label draws a new number |
| Declarations.SubsResolvedAppend | src/io/github/hbusul/CompilationEngine.java:341-344 | the names of one more subroutine resolve exactly when those of each subroutine do |
| AcceptedPhrases.TermSettles | src/io/github/hbusul/CompilationEngine.java:627-737 | a parsed term is well formed, or the token after it is not a symbol |
| AcceptedPhrases.ExprSettles | src/io/github/hbusul/CompilationEngine.java:582-599 | a parsed expression is well formed, or the token after it is not a symbol |
| AcceptedPhrases.ExprListSettles | src/io/github/hbusul/CompilationEngine.java:739-757 | a parsed expression list is well formed, or the token after it is not a symbol |
| AcceptedPhrases.CallWellFormed | src/io/github/hbusul/CompilationEngine.java:759-812 | the arguments of every parsed call are well formed, since the closing parenthesis must follow them |
| AcceptedPhrases.StatementWellFormed | src/io/github/hbusul/CompilationEngine.java:137-292 | every statement the grammar accepts is well formed |
| AcceptedPhrases.BranchesWellFormed | src/io/github/hbusul/CompilationEngine.java:160-192 | both branches of an accepted if statement are well formed |
| AcceptedPhrases.StatementsWellFormed | src/io/github/hbusul/CompilationEngine.java:294-321 | every statement sequence the grammar accepts is well formed |
| AcceptedPhrases.AcceptedStatementsBalanced | src/io/github/hbusul/CompilationEngine.java:294-321 | the code of an accepted statement sequence whose names resolve leaves the stack as it found it |
| AcceptedPhrases.AcceptedExprPushesOne | src/io/github/hbusul/CompilationEngine.java:582-599 | an accepted expression followed by a symbol, whose names resolve, leaves exactly one value on the stack |
| AcceptedPhrases.SkippedIdentifier | src/io/github/hbusul/CompilationEngine.java:667-672 | two identifiers in a row parse as an expression that steps over the first identifier and writes no code |
| AcceptedPhrases.SubroutineDecsWellFormed | src/io/github/hbusul/CompilationEngine.java:341-344 | the bodies of every subroutine the grammar accepts are well formed |
| AcceptedPhrases.AcceptedClassBalanced | src/io/github/hbusul/CompilationEngine.java:323-349 | for an accepted class whose names resolve, the body of every subroutine leaves the stack as it found it |
| JackParser.Following | src/io/github/hbusul/CompilationEngine.java:51-52 | "if hasMoreTokens then advance": the cursor moves one token on, except at the last token, where it stays |
| JackParser.ParseTerm | src/io/github/hbusul/CompilationEngine.java:627-737 | a term is recognised only at an existing token and ends at an existing token; one that starts with a symbol consumes at least that symbol |
| JackParser.ParseSymbolTerm | src/io/github/hbusul/CompilationEngine.java:653-666 | ( expression ) and a unary operator with its term consume at least their first symbol |
| JackParser.ParseIdentifierTerm | src/io/github/hbusul/CompilationEngine.java:667-733 | a term that starts with an identifier ends at an existing token |
| JackParser.ParseExpr | src/io/github/hbusul/CompilationEngine.java:582-599 | an expression is recognised only at an existing token and ends at an existing token |
| JackParser.ParseExprList | src/io/github/hbusul/CompilationEngine.java:739-757 | an expression list ends no earlier than it starts and, when tokens remain, at an existing token |
| JackParser.ParseCall | src/io/github/hbusul/CompilationEngine.java:759-812 | a subroutine call consumes at least its name and ends at an existing token |
| JackParser.ParseArgs | src/io/github/hbusul/CompilationEngine.java:807-811 | the argument list keeps the call's qualifier and name, and ends after the token it starts at |
| JackParser.ParseStatementsFrom | src/io/github/hbusul/CompilationEngine.java:294-321 | a statement sequence ends no earlier than it starts and at an existing token |
| JackParser.ParseStatement | src/io/github/hbusul/CompilationEngine.java:298-317 | every statement consumes at least its keyword |
| JackParser.ParseWhile | src/io/github/hbusul/CompilationEngine.java:137-158 | a while statement consumes at least its keyword |
| JackParser.ParseIf | src/io/github/hbusul/CompilationEngine.java:160-192 | an if statement consumes at least its keyword |
| JackParser.IfOf | src/io/github/hbusul/CompilationEngine.java:178-189 | the statement has the condition and the then-branch, and is an if-else exactly when an else part was read |
| JackParser.ParseBranches | src/io/github/hbusul/CompilationEngine.java:174-189 | the branches of an if consume at least the first brace |
| JackParser.ParseElseOpt | src/io/github/hbusul/CompilationEngine.java:178-189 | the else part is absent exactly when nothing is consumed |
| JackParser.ParseCondition | src/io/github/hbusul/CompilationEngine.java:143-145 | ( expression ) consumes at least the parenthesis |
| JackParser.ParseBlock | src/io/github/hbusul/CompilationEngine.java:150-152 | { statements } consumes at least the brace |
| JackParser.ParseLet | src/io/github/hbusul/CompilationEngine.java:194-266 | a let statement consumes at least its keyword |
| JackParser.ParseLetIndexed | src/io/github/hbusul/CompilationEngine.java:206-241 | an indexed let assigns to the variable that was read |
| JackParser.ParseLetValue | src/io/github/hbusul/CompilationEngine.java:232-262 | the end of a let gives a scalar or an indexed let |
| JackParser.LetOf | src/io/github/hbusul/CompilationEngine.java:194-266 | the let statement assigns the value to the variable read |
| JackParser.ParseDo | src/io/github/hbusul/CompilationEngine.java:268-275 | a do statement consumes at least its keyword |
| JackParser.ParseReturn | src/io/github/hbusul/CompilationEngine.java:277-292 | a return statement consumes at least its keyword |
| JackParser.ParseType | src/io/github/hbusul/CompilationEngine.java:459-474 | a type is exactly one token |
| JackParser.ParseNameList | src/io/github/hbusul/CompilationEngine.java:392-399 | a name list holds at least one name |
| JackParser.ParseClassVarDec | src/io/github/hbusul/CompilationEngine.java:351-409 | a class variable declaration consumes at least its keyword |
| JackParser.ParseClassVarDecs | src/io/github/hbusul/CompilationEngine.java:331-334 | the class variable declarations end no earlier than they start |
| JackParser.ParseParameterList | src/io/github/hbusul/CompilationEngine.java:476-507 | the parameter list ends no earlier than it starts |
| JackParser.ParseVarDec | src/io/github/hbusul/CompilationEngine.java:532-568 | a local variable declaration consumes at least its keyword |
| JackParser.ParseVarDecs | src/io/github/hbusul/CompilationEngine.java:512-513 | the local declarations end no earlier than they start |
| JackParser.ParseSubroutineDec | src/io/github/hbusul/CompilationEngine.java:411-457 | a subroutine declaration consumes at least its keyword |
| JackParser.ParseSubroutineHeading | src/io/github/hbusul/CompilationEngine.java:435-450 | the declaration keeps the kind its keyword gave |
| JackParser.ParseSubroutineRest | src/io/github/hbusul/CompilationEngine.java:450-454 | the declaration keeps its kind and its name |
| JackParser.ParseSubroutineBody | src/io/github/hbusul/CompilationEngine.java:509-530 | the declaration keeps its kind, its name and its parameters |
| JackParser.ParseSubroutineDecs | src/io/github/hbusul/CompilationEngine.java:341-344 | the subroutine declarations end no earlier than they start |
| JackParser.SubroutineDecsExtend | src/io/github/hbusul/CompilationEngine.java:341-344 | the subroutines read after a list of subroutines extend that list |
| JackParser.ParseClass | src/io/github/hbusul/CompilationEngine.java:323-349 | a class consumes at least its keyword |
| JackParser.ParseClassBody | src/io/github/hbusul/CompilationEngine.java:329-346 | the class keeps the name read after its keyword |
| CompilationEngine.InsertNames | src/io/github/hbusul/CompilationEngine.java:402-407 | inserts the declared names into a table in order: the table's history grows by the declaration's insertions |
| CompilationEngine.Engine.constructor | src/io/github/hbusul/CompilationEngine.java:23-32 | a fresh engine is at the first token with empty tables, nothing written and the label counter at 0 |
| CompilationEngine.Engine.Step | src/io/github/hbusul/CompilationEngine.java:51-52 | the cursor moves as Following says |
| CompilationEngine.Engine.GenerateLabel | src/io/github/hbusul/CompilationEngine.java:34-37 | returns L n for the current counter n and adds 1 to the counter |
| CompilationEngine.Engine.ConsumeKeyword | src/io/github/hbusul/CompilationEngine.java:39-53 | succeeds exactly when the current token is that keyword, and then steps over it |
| CompilationEngine.Engine.ConsumeSymbol | src/io/github/hbusul/CompilationEngine.java:55-68 | succeeds exactly when the current token is that symbol, and then steps over it |
| CompilationEngine.Engine.ConsumeSymbolWeak | src/io/github/hbusul/CompilationEngine.java:70-78 | steps over the symbol when it is there and otherwise does nothing; it never fails |
| CompilationEngine.Engine.ConsumeIdentifier | src/io/github/hbusul/CompilationEngine.java:570-580 | succeeds exactly when the current token is an identifier, returns its text and steps over it |
| CompilationEngine.Engine.EmitOp | src/io/github/hbusul/CompilationEngine.java:588-596 | writes the code of the operator: add, sub, the two Math calls, and, or, lt, gt or eq |
| CompilationEngine.Engine.WriteString | src/io/github/hbusul/CompilationEngine.java:642-651 | the loop over the string's UTF-16 code units writes the code of the string constant |
| CompilationEngine.Engine.LookupName | src/io/github/hbusul/CompilationEngine.java:703-707 | getVal in the subroutine table, then in the class table when the first answers -1 |
| CompilationEngine.Engine.CompileTerm | src/io/github/hbusul/CompilationEngine.java:627-737 | fails exactly when no term starts here or a name in it does not resolve; otherwise consumes the term and writes its code |
| CompilationEngine.Engine.EmitKeywordConstant | src/io/github/hbusul/CompilationEngine.java:631-638 | true is push constant 1 then neg; false and null are push constant 0; this is push pointer 0 |
| CompilationEngine.Engine.CompileSymbolTerm | src/io/github/hbusul/CompilationEngine.java:653-666 | the same for ( expression ) and a unary operator with its term, whose operator code follows the operand |
| CompilationEngine.Engine.EmitArrayRead | src/io/github/hbusul/CompilationEngine.java:692-694 | writes add, pop pointer 1, push that 0 |
| CompilationEngine.Engine.CompileIdentifierTerm | src/io/github/hbusul/CompilationEngine.java:667-733 | the same for a term that starts with an identifier: an array element, a call or a variable, decided by the next token |
| CompilationEngine.Engine.CompileVariableTerm | src/io/github/hbusul/CompilationEngine.java:676-727 | an array read pushes its base from the segment named after the kind, so a field is read from local; a variable is pushed from its segment, a field from this |
| CompilationEngine.Engine.CompileIndex | src/io/github/hbusul/CompilationEngine.java:688-694 | [ expression ] then the element read |
| CompilationEngine.Engine.CompileExpression | src/io/github/hbusul/CompilationEngine.java:582-599 | fails exactly when no expression starts here or a name does not resolve; otherwise consumes it and writes the left fold: each term's code followed by its operator's |
| CompilationEngine.Engine.CompileExpressionList | src/io/github/hbusul/CompilationEngine.java:739-757 | the same for an expression list; the count it returns is the number of expressions |
| CompilationEngine.Engine.CompileMoreExpressions | src/io/github/hbusul/CompilationEngine.java:749-753 | the loop over , expression |
| CompilationEngine.Engine.CompileReceiver | src/io/github/hbusul/CompilationEngine.java:764-795 | a qualifier found in a table is a method call through that variable: it is pushed and its recorded class names the function; otherwise the qualifier itself names a class and nothing is pushed |
| CompilationEngine.Engine.CompileSubroutineCall | src/io/github/hbusul/CompilationEngine.java:759-812 | fails exactly when no call starts here or a name does not resolve; otherwise consumes it and writes the receiver, the arguments and the call, whose count is the arguments plus 1 for a receiver |
| CompilationEngine.Engine.CompileQualifiedCall | src/io/github/hbusul/CompilationEngine.java:764-811 | the same for a call with a qualifier |
| CompilationEngine.Engine.CompilePlainCall | src/io/github/hbusul/CompilationEngine.java:799-811 | the same for a call without a qualifier: push pointer 0, the name class.name and one extra argument |
| CompilationEngine.Engine.CompileQualifiedName | src/io/github/hbusul/CompilationEngine.java:764-798 | the receiver, the dot and the subroutine name, with the function name and the method-call flag of that call |
| CompilationEngine.Engine.CompileArguments | src/io/github/hbusul/CompilationEngine.java:807-811 | ( expressionList ) and then the call line |
| CompilationEngine.Engine.CompileStatements | src/io/github/hbusul/CompilationEngine.java:294-321 | fails exactly when the statements do not parse or a name does not resolve; otherwise consumes them, draws the labels they use and writes their code |
| CompilationEngine.Engine.CompileStatement | src/io/github/hbusul/CompilationEngine.java:298-317 | the same for one statement chosen by its keyword |
| CompilationEngine.Engine.CompileDoStatement | src/io/github/hbusul/CompilationEngine.java:268-275 | the call, then pop temp 0 |
| CompilationEngine.Engine.CompileReturnStatement | src/io/github/hbusul/CompilationEngine.java:277-292 | return followed by any symbol writes push constant 0 and return; otherwise the expression and return |
| CompilationEngine.Engine.CompileLetStatement | src/io/github/hbusul/CompilationEngine.java:194-266 | the variable is looked up first; an unresolved name fails; then the scalar or the indexed form |
| CompilationEngine.Engine.CompileIndexedAssignment | src/io/github/hbusul/CompilationEngine.java:206-241 | the base, the index, add, pop temp 0, the value, then push temp 0, pop pointer 1, pop that 0 |
| CompilationEngine.Engine.CompileLetValue | src/io/github/hbusul/CompilationEngine.java:232-262 | = value ; then the store into the variable's segment (a field into this) or into the element |
| CompilationEngine.Engine.CompileWhileStatement | src/io/github/hbusul/CompilationEngine.java:137-158 | label La, the condition, not, if-goto Lb, the body, goto La, label Lb, with b = a + 1 and both drawn before the condition |
| CompilationEngine.Engine.CompileLoopBody | src/io/github/hbusul/CompilationEngine.java:147-155 | the part of a while loop after its condition |
| CompilationEngine.Engine.CompileIfStatement | src/io/github/hbusul/CompilationEngine.java:160-192 | the condition, not, if-goto L1 and the then-branch; with else, goto L2, label L1, the else-branch and label L2; without, label L1; L2 is drawn after the then-branch |
| CompilationEngine.Engine.CompileBranches | src/io/github/hbusul/CompilationEngine.java:167-189 | the part of an if statement after its condition |
| CompilationEngine.Engine.CompileElseOpt | src/io/github/hbusul/CompilationEngine.java:178-189 | the else part, present exactly when the next token is else |
| CompilationEngine.Engine.CompileCondition | src/io/github/hbusul/CompilationEngine.java:143-145 | ( expression ) |
| CompilationEngine.Engine.CompileBlock | src/io/github/hbusul/CompilationEngine.java:150-152 | { statements } |
| CompilationEngine.Engine.ConsumeType | src/io/github/hbusul/CompilationEngine.java:459-474 | succeeds exactly when the token is a class name, int, char or boolean, and steps over it |
| CompilationEngine.Engine.CompileType | src/io/github/hbusul/CompilationEngine.java:372-389 | the symbol type of the declared type, and the class name for a class type |
| CompilationEngine.Engine.CompileNameList | src/io/github/hbusul/CompilationEngine.java:392-399 | the declared names, in order |
| CompilationEngine.Engine.CompileClassVarDec | src/io/github/hbusul/CompilationEngine.java:351-409 | the names are inserted into the class table as statics or fields, in order, after the whole declaration is read |
| CompilationEngine.Engine.CompileVarDec | src/io/github/hbusul/CompilationEngine.java:532-568 | the names are inserted into the subroutine table as locals, in order |
| CompilationEngine.Engine.CompileParameterList | src/io/github/hbusul/CompilationEngine.java:476-507 | each parameter is inserted into the subroutine table as an argument, in order |
| CompilationEngine.Engine.WriteAlloc | src/io/github/hbusul/CompilationEngine.java:519 | push constant n, then call Memory.alloc 1 |
| CompilationEngine.Engine.CompileVarDecs | src/io/github/hbusul/CompilationEngine.java:512-513 | the local declarations while the token is var |
| CompilationEngine.Engine.EnvOfHistories | src/io/github/hbusul/CompilationEngine.java:199-201 | what the engine reads of its tables is what their insertions define |
| CompilationEngine.Engine.EmitPrologue | src/io/github/hbusul/CompilationEngine.java:517-525 | a constructor allocates as many words as the class has fields and sets pointer 0; a method sets pointer 0 from argument 0; a function writes nothing |
| CompilationEngine.Engine.CompileSubroutineCode | src/io/github/hbusul/CompilationEngine.java:515-528 | function class.name with the number of locals, the prologue, then the statements and the closing brace |
| CompilationEngine.Engine.CompileSubroutineBody | src/io/github/hbusul/CompilationEngine.java:509-530 | { varDec* statements }: the function line comes after all local declarations |
| CompilationEngine.Engine.CompileSubroutineRest | src/io/github/hbusul/CompilationEngine.java:450-454 | ( parameterList ) and the body |
| CompilationEngine.Engine.StartClassTable | src/io/github/hbusul/CompilationEngine.java:324 | a fresh, empty class table |
| CompilationEngine.Engine.StartSubroutineTable | src/io/github/hbusul/CompilationEngine.java:412-430 | a fresh subroutine table; a method's starts with this as argument 0, with no class name recorded |
| CompilationEngine.Engine.CompileSubroutineDec | src/io/github/hbusul/CompilationEngine.java:411-457 | fails exactly when no subroutine declaration starts here or a name in it does not resolve; otherwise consumes it, draws the labels its body uses and writes its code |
| CompilationEngine.Engine.CompileSubroutineHeading | src/io/github/hbusul/CompilationEngine.java:435-450 | the return type is checked and stepped over, then the name is read |
| CompilationEngine.Engine.CompileClassVarDecs | src/io/github/hbusul/CompilationEngine.java:331-334 | the class table holds the insertions of the class variable declarations |
| CompilationEngine.Engine.CompileSubroutineDecs | src/io/github/hbusul/CompilationEngine.java:341-344 | the subroutines in order, the label counter running on from one into the next |
| CompilationEngine.Engine.CompileClassBody | src/io/github/hbusul/CompilationEngine.java:329-346 | { classVarDec* subroutineDec* } |
| CompilationEngine.Engine.CompileClass | src/io/github/hbusul/CompilationEngine.java:323-349 | fails exactly when the tokens do not form a class or a name in it does not resolve; otherwise writes the class's code |
| CompilationEngine.Compile | src/io/github/hbusul/CompilationEngine.java:23-32 | a fresh engine compiles one class; on success its lines are the rendering of that class's code, in which Declarations.ClassLabelsFresh shows no label is defined twice |

## Left out

- JackCompiler.java, the directory walk and the command line: file and
  console I/O. The engine takes the token sequence of one file.
  - `CompilationEngine.Compile` takes a token sequence.
  - The tokenizer model covers how one token is read from a character sequence.
  - The loop that lexes a whole file into that sequence is not modelled.
- File opening and closing:
  - the engine's constructor opens its files; the model keeps only its
    state: the first token, the label counter at 0 and an empty emitter;
  - the `close` methods of the engine, the tokenizer and both writers;
  - the buffer-size argument of `BufferedReader.mark`.
- The XML trace calls interleaved in the engine. `BasicXMLWriter` is modelled
  on its own, and the engine model is about VM output only.
- `SymbolTable.print`: console output.
- `getInputFileName` and the token accessors of the tokenizer carry no contract of their own:
  - `getTokenType`, `keyword`, `symbol`, `identifier`, `intVal` and `stringVal`
    are functions that read the current token; `intVal` reads it through
    `JackTokenizer.IntValue`, the same function the grammar uses;
  - the engine reads the same facts from its token sequence.
- Error messages. Every `RuntimeException`, the `EmptyStackException` of an
  XML close with no open tag, and the `NumberFormatException` of `intVal` on a
  literal above 2^31 - 1 are modelled as a failure outcome (`ok == false`,
  `IncorrectClose`, `EmptyStack`).
- CompilationEngine.Engine.CompileClass, and every other compile method of the engine: on failure the contract does not say which commands were written before the error, only that the emitter still holds exactly the commands written.
- CompilationEngine.Compile: on failure the lines returned are not specified.
- CompilationEngine.Engine.CompileTerm: at the last token, a term that starts with `(`, `-` or `~` makes the source recurse without end, because stepping past the last token does not move the tokenizer. The model reports this as a failure rather than a stack overflow.
- JackTokenizerClass.Tokenizer.HasMoreTokens and JackTokenizerClass.Tokenizer.Advance require an input on which the source terminates:
  - no unterminated block comment before the next token;
  - no unterminated string constant.

  On such input the source reads the end-of-input marker forever.
- SymbolTables.DecodePack, SymbolTables.PackInjective and SymbolTables.DistinctInsertionsDistinctValues require indices below 2^24. Larger indices would spill into the kind and type bits.
- CompilationEngine.Engine.CompileIfStatement draws its first label before it writes `not` and `if-goto`. The source draws it after writing `not`. Label names do not depend on the output, so the commands written are the same.
- CompilationEngine.Engine.CompileSubroutineHeading checks the return type and steps over it but does not record it. The source does not use it either.
- The stale keyword of the tokenizer is not modelled when the current token is not a keyword. `keyword()` keeps the last keyword seen. The source consults it after a non-keyword token only in `compileParameterList`, when a parameter's type is neither an identifier nor a keyword; that path fails, in `consumeType` or with its own exception, whatever the stale value. `compileVarDec` reads `keyword()` only when the token is a keyword. The model reads a token's keyword only from keyword tokens.
- The input file is modelled as a sequence of Unicode characters. The decoding of its bytes by the platform charset of `FileReader` is not modelled. The reader delivers UTF-16 code units, so a character above 0x10000 is two units there and one character here.
  - Outside string constants this changes nothing: such a character is neither a digit, a letter, `_`, a symbol nor white space, in either form.
  - In a string constant the units are what the engine counts and appends; `CodeGen.StringCode` and `CompilationEngine.Engine.WriteString` convert the constant to its UTF-16 units with `Base.Utf16` before counting.
- VMWriter.RenderReadsBack covers well-formed commands, whose names hold no space. That every command the engine writes is well formed is not proved.
- SymbolTables: a symbol value is modelled as the 32-bit pattern of the Java int, read as a number from 0 to 2^32 - 1.
  - Java's `-1` is 0xFFFFFFFF.
  - An ARGUMENT value, whose top bit is set, is a negative int in Java and a number of at least 2^31 here.
  - Bits are tested arithmetically, with the same outcome as the source's masks.
