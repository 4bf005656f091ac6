# MfmToYaml: the MFM reader and the declaration table, in Dafny

MfmToYaml converts an MFM file into YAML. An MFM file is a plain-text list of
enum declarations (`map Name elementType` followed by `value name` pairs) and
function declarations (`[group, type] name` followed by `type name`
parameters). The core of the converter has two parts, and this project models
both:

- **`MfmReader`** (`src/MfmToYaml/Readers/MfmReader.cs`) runs one state
  machine over the input bytes. It keeps a cursor, a state, a saved state for
  comments, and the enum or function being filled. It fills two
  insertion-ordered dictionaries.
- **`Mfm`** (`src/MfmToYaml/Mfm.cs`) holds those two dictionaries.
  - Its constructor runs the reader and then a capitalisation pass, `FormatName`.
  - `Write` walks the dictionaries and pushes calls into a YAML emitter. It
    builds each function key `[group, type]` in a reused 24-byte buffer.

## How the model is laid out

- `bytes.dfy` (`Bytes`): the byte type and the character classes of the
  lexer. `outcomes.dfy` (`Outcomes`): the exceptions the code can throw, as a
  failure-compatible `Result`.
- `numbers.dfy` (`Numbers`): decimal rendering (`TryFormat`) and integer
  parsing (`Read<T>`), with 32- and 64-bit ranges written out.
- `lexer.dfy` (`Lexer`): the cursor scans as functions of the buffer and a
  start offset.
- `declarations.dfy` (`Declarations`): the table. Each dictionary is a
  sequence of entries in insertion order, with unique keys. The record types
  `FunctionEnum` and `Function` are rebuilt from how the code uses them.
  An enum's values are read as a list of (value, name) pairs that allows a
  repeated value: `currentEnum.Add(enumValue, enumValueName)` and the pair
  deconstruction when writing would also fit a `Dictionary<long, string>`.
  That reading would make the reader fail on a repeated value key, where
  this model appends the duplicate pair.
- `parser_spec.dfy` (`ParserSpec`): one iteration of the reader's loop as
  `Step` over a configuration, and the loop as `Run`. Every case function
  states how the cursor moves, how the table grows and which errors arise.
  A well-formedness invariant `Wf` shows that the `ThrowIfNull` checks of
  lines 60 and 91 never fire.
- `parser_properties.dfy` (`ParserProperties`): properties of the loop. They
  cover:
  - order preservation;
  - comments that resume the interrupted state;
  - duplicate rejection;
  - trailing whitespace, which reads past the end of the buffer;
  - the unchecked `map` keyword;
  - the parameter loop that never ends.
- `mfm_reader.dfy` (`Readers.MfmReader`): the reader as a class.
  - The class has a mutable cursor and methods with loops.
  - Each method is proved to do what the matching `Lexer` or `ParserSpec`
    function says.
  - `Read` is proved to end as `Run` does.
- `mfm.dfy` (`MfmToYaml`): the `Mfm` class, whose two dictionaries are
  sequence fields that its methods update in place.
  - The capitalisation pass has one loop per dictionary.
  - `Write` is a method that builds the event list.
  - The key is filled byte by byte into a 24-byte `array`.
- `names.dfy` (`Names`): the capitalisation pass as a function of the table,
  with its properties.
- `events.dfy` (`Events`): `Write` as a list of emitter events, and the key
  text the 24-byte buffer yields.
  - A decoder of those events returns the table.
  - It is proved to invert `Write` whenever every key fits.
- `key_round_trip.dfy` (`KeyRoundTrip`): a function key written as intended
  reads back through the reader's own header code.
- `conversion.dfy` (`Conversion`): `new Mfm(data)`, meaning the reader
  followed by the pass.
- `scenarios.dfy` (`Scenarios`): small concrete documents that show each
  behaviour. Each is stated over every buffer that holds the given bytes at
  the given offsets.

## Behaviour worth knowing

The model follows the code in each of these cases:

- **Empty names throw.** `FormatName` writes to the first character of the
  name (`src/MfmToYaml/Mfm.cs:89`), so an empty name throws
  `IndexOutOfRange` (`Names.FormatName`, `Names.FormatTables`).
- **No whitespace after `[`.** The Function case reads the group right after
  the `[` (`src/MfmToYaml/Readers/MfmReader.cs:75-77`) and skips whitespace
  only after the comma. So `[ 1, 2]` reads an empty group token, and
  parsing it fails (`Scenarios.SpaceBeforeGroupRejected`).
- **Trailing whitespace fails.** When whitespace runs to the end of the
  buffer, the dispatch and the list cases index the byte at the buffer's
  length (`src/MfmToYaml/Readers/MfmReader.cs:63`, `:94`, `:108`, `:137`)
  (`ParserProperties.TrailingWhitespaceFails`, `Scenarios.TrailingNewlineFails`).
  So a document whose last line ends in a newline is rejected.
- **The comment's newline is not consumed.** `SkipComment` stops on the LF
  (`src/MfmToYaml/Readers/MfmReader.cs:123`). The state that resumes then
  skips it as whitespace.
- **The keyword is not checked.** The enum case moves three bytes past the
  `m` without looking at them (`src/MfmToYaml/Readers/MfmReader.cs:50`)
  (`ParserProperties.EnumKeywordUnchecked`).
- **Number errors carry no offset.** `T.Parse` throws a format or overflow
  exception about the token only (`src/MfmToYaml/Readers/MfmReader.cs:143`),
  so the model's `NumberFormat` and `NumberOverflow` carry the token and no
  position.

## Model

| member | source | states |
|---|---|---|
| Bytes.ToUpper | src/MfmToYaml/Mfm.cs:89 | the upper-cased byte is never a lower-case letter; `a`-`z` move down by 32 to `A`-`Z`, and every other byte is kept |
| Lexer.WhitespaceEnd | src/MfmToYaml/Readers/MfmReader.cs:128-133 | the skip ends at or after the start and inside the buffer; every byte passed over is space, tab, CR or LF; the byte it stops on, if any, is not; a start past the end is left where it is |
| Lexer.CommentEnd | src/MfmToYaml/Readers/MfmReader.cs:121-126 | the skip stops on the first LF at or after the start (without consuming it) or at the end; no byte passed over is an LF; started on any other byte it always moves |
| Lexer.TokenEnd | src/MfmToYaml/Readers/MfmReader.cs:155-157 | every byte of the run is a token byte and the byte after it, if any, is not: the run is maximal |
| Lexer.TokenEndOver | src/MfmToYaml/Readers/MfmReader.cs:155-157 | a run of token bytes closed by the end of the buffer or by another byte is exactly the token the scan finds |
| Lexer.ReadSpan | src/MfmToYaml/Readers/MfmReader.cs:152-160 | succeeds exactly when the start is within the buffer, and otherwise fails as the slice does; the token is the buffer slice from the start to its end, made of token bytes only, possibly empty, and maximal |
| Lexer.TrimBraces | src/MfmToYaml/Readers/MfmReader.cs:99 | the result is an infix of the input; everything removed before and after it is a brace; it neither starts nor ends with a brace |
| Numbers.Digits | src/MfmToYaml/Mfm.cs:64 | the rendering of a natural number is a non-empty run of digits with no leading zero |
| Numbers.DigitsReadBack | src/MfmToYaml/Mfm.cs:64 | reading the digits back gives the number rendered |
| Numbers.Decimal | src/MfmToYaml/Mfm.cs:64 | a rendering is non-empty, starts with `-` exactly when the value is negative, and never starts with `+` |
| Numbers.DigitsParseValue | src/MfmToYaml/Readers/MfmReader.cs:143 | the digit loop yields a value exactly when every byte is a digit, and that value is the digits' value |
| Numbers.ParseInteger | src/MfmToYaml/Readers/MfmReader.cs:143 | a parsed value lies in the range asked for; an empty token is a format error; every failure is a format or an overflow error on that token |
| Numbers.ParseIntegerMeaning | src/MfmToYaml/Readers/MfmReader.cs:143 | a token parses exactly when it is an optional sign followed by one or more digits whose signed value is in range, and then gives that value; any other shape is a format error, and an out-of-range number an overflow error |
| Numbers.ParseDecimal | src/MfmToYaml/Readers/MfmReader.cs:143 | parsing inverts rendering: every in-range value reads back from its decimal text |
| Numbers.DecimalSyntax | src/MfmToYaml/Mfm.cs:64 | every rendering is an optional `-` and digits whose signed value is the value rendered |
| Numbers.DigitsFit | src/MfmToYaml/Mfm.cs:60-68 | a number has at most k digits exactly when it is below 10^k |
| Numbers.Int32DecimalLength | src/MfmToYaml/Mfm.cs:60-68 | a 32-bit value renders in at most 11 bytes, and in exactly 11 when it is at most -1 000 000 000 |
| ParserSpec.Dispatch | src/MfmToYaml/Readers/MfmReader.cs:106-116 | after the whitespace, `#`, `m` and `[` open Comment, FunctionEnum and Function without consuming the byte; any other byte is an unexpected-character error at its offset; reaching the end is an out-of-range error |
| ParserSpec.HandoverKeeps | src/MfmToYaml/Readers/MfmReader.cs:93-97 | a parameter state (or an enum-value state, lines 62-66) that meets `#`, `m` or `[` after its whitespace saves itself as the previous state and dispatches to the state that byte opens, keeping the cursor on it, the reader invariant and the table |
| ParserSpec.StepComment | src/MfmToYaml/Readers/MfmReader.cs:43-48 | the cursor moves to the comment's end and strictly forward; the saved state is resumed and cleared; the table is untouched |
| ParserSpec.StepEnum | src/MfmToYaml/Readers/MfmReader.cs:49-58 | on success the cursor moves forward; one enum with no values is added after all existing ones, becomes the current enum, and the functions are untouched; a duplicate-name error names an enum already in the table; a name start past the buffer fails as the slice does, otherwise the step is EnumNamed on the maximal token there |
| ParserSpec.StepEnumMeaning | src/MfmToYaml/Readers/MfmReader.cs:49-58 | the name is the maximal token after the three skipped bytes and any whitespace, the element type the next token after whitespace; the step succeeds exactly when the name is not taken, stores (name, element type) with no values, and ends the cursor just past the element type; a taken name gives exactly the duplicate-name error; a name start past the buffer fails as the slice does |
| ParserSpec.EnumNamed | src/MfmToYaml/Readers/MfmReader.cs:53-56 | once the name token is read: succeeds exactly when the name is not taken; the new enum goes after the existing ones as (name, the next token after whitespace) with no values, and the cursor ends past that token; a taken name gives exactly the duplicate-name error |
| ParserSpec.StepEnumValue | src/MfmToYaml/Readers/MfmReader.cs:59-73 | on a special byte, hands over to dispatch with the enum state saved and the table unchanged; otherwise it succeeds exactly when the next token parses as a 64-bit integer, fails with that parse error if not, and appends to the end of the current enum the pair (that value, the token after it and any whitespace), changing nothing else |
| ParserSpec.ValueNamed | src/MfmToYaml/Readers/MfmReader.cs:68-71 | once the value is read: the current enum gains at its end exactly the pair (value, the next token after whitespace), the cursor ends past that token, and nothing else changes |
| ParserSpec.ReadInteger | src/MfmToYaml/Readers/MfmReader.cs:140-144 | a value read lies in the type's range; a start past the end fails as the slice does |
| ParserSpec.ReadIntegerMeaning | src/MfmToYaml/Readers/MfmReader.cs:140-144 | inside the buffer, the read succeeds exactly when the maximal token at the start parses, gives that parse's value and ends just past the token, and fails with the parse's error otherwise |
| ParserSpec.ReadIntegerAdvances | src/MfmToYaml/Readers/MfmReader.cs:140-144 | a successful read consumes at least one byte and stays inside the buffer |
| ParserSpec.KeyAdvances | src/MfmToYaml/Readers/MfmReader.cs:75-82 | a key read spans at least five bytes and ends at most one past the buffer |
| ParserSpec.ReadFunctionKeyMeaning | src/MfmToYaml/Readers/MfmReader.cs:75-82 | the key's group is the integer read from the maximal token right after `[`; its type is the integer read from the token after one more byte and any whitespace; the key ends one byte past that token; a failed group read is the key's failure |
| ParserSpec.KeyGroupRead | src/MfmToYaml/Readers/MfmReader.cs:75-78 | a failed group read fails the key with the same error; otherwise the group token is the maximal token after `[` and the read goes on to the type from just past it |
| ParserSpec.KeyTypeRead | src/MfmToYaml/Readers/MfmReader.cs:78-82 | a completed key keeps the group, takes as its type the integer read after one byte and any whitespace, and ends one byte past that token |
| ParserSpec.StepFunction | src/MfmToYaml/Readers/MfmReader.cs:74-89 | on success the cursor moves forward and the function (key read, the name token after whitespace) with no parameters is added after all existing ones and becomes the current function, the enums untouched; a failed key read is the step's failure; a name start past the buffer fails as the slice does; otherwise it succeeds exactly when the key is not taken, and a duplicate-key error names a key already in the table |
| ParserSpec.FunctionNamed | src/MfmToYaml/Readers/MfmReader.cs:83-87 | once the key is read: a name start past the buffer fails as the slice does; otherwise succeeds exactly when the key is not taken, and adds (key, the next token after whitespace) with no parameters after the existing functions, with the cursor past the name |
| ParserSpec.ParameterIteration | src/MfmToYaml/Readers/MfmReader.cs:90-105 | one pass of the parameter case: on a special byte, hands over with the table unchanged; otherwise appends exactly one parameter to the end of the current function, whose type neither starts nor ends with a brace, and changes nothing else |
| ParserSpec.ParameterIterationMeaning | src/MfmToYaml/Readers/MfmReader.cs:90-105 | whitespace up to the end of the buffer is an out-of-range error there; on a byte that is not special the pass stays in the parameter state and appends exactly (the token there with its braces trimmed, the token after it and any whitespace), leaving the cursor just past the name |
| ParserSpec.ParameterRead | src/MfmToYaml/Readers/MfmReader.cs:99-103 | reading a parameter from its first byte appends exactly (the maximal token there with braces trimmed, the next token after whitespace) to the current function, brace-free at both ends of its type, and leaves the cursor past the name |
| ParserSpec.AppendParameterExtends | src/MfmToYaml/Readers/MfmReader.cs:103 | appending a parameter keeps every key, name and earlier parameter, keeps the keys unique and leaves the enums alone |
| ParserSpec.ParameterAppended | src/MfmToYaml/Readers/MfmReader.cs:99-103 | moving the cursor within the buffer and appending a parameter to the current function keeps the loop invariant and only grows the table, the parameter landing at the end of that function's list |
| ParserSpec.ParameterTokens | src/MfmToYaml/Readers/MfmReader.cs:99-101 | the type is the maximal token from the start with its braces trimmed, so brace-free at both ends; the name is the maximal token after the type and any whitespace; the end is just past the name, inside the buffer |
| ParserSpec.StepParameter | src/MfmToYaml/Readers/MfmReader.cs:90-105 | every successful step is the parameter pass itself and makes progress; the pass's error is the step's error; a pass that stays in the parameter state without moving gives NoProgress, and NoProgress arises only there |
| ParserSpec.Step | src/MfmToYaml/Readers/MfmReader.cs:41-117 | each loop iteration keeps the invariant and only grows the table; it either moves the cursor forward or keeps it and lowers the state's rank, so the loop terminates |
| ParserSpec.Run | src/MfmToYaml/Readers/MfmReader.cs:33-119 | a successful run ends with the cursor at the end of the buffer and the invariant holding |
| ParserSpec.RunStep | src/MfmToYaml/Readers/MfmReader.cs:41-117 | the loop stops on the first step's error or goes on from the configuration that step reaches |
| ParserSpec.Parse | src/MfmToYaml/Readers/MfmReader.cs:33-119 | a table read from an empty start has no enum name and no function key twice |
| ParserProperties.RunExtends | src/MfmToYaml/Readers/MfmReader.cs:41-117 | across the whole loop entries are only added at the end of a table and pairs at the end of a list: nothing is removed, reordered or renamed |
| ParserProperties.CommentResumes | src/MfmToYaml/Readers/MfmReader.cs:43-48 | a `#` seen at top level or in a list opens a comment with that state saved; skipping it resumes the saved state with the saved slot cleared and the table untouched |
| ParserProperties.StallingPass | src/MfmToYaml/Readers/MfmReader.cs:90-104 | a parameter pass whose next significant byte is `,` or `]` appends ("", "") and leaves the cursor on that byte |
| ParserProperties.ParameterStallsForever | src/MfmToYaml/Readers/MfmReader.cs:90-105 | at a `,` or `]`, the next parameter pass repeats itself forever: it appends ("", "") again without moving; the model reports NoProgress there |
| ParserProperties.StallOnlyAtDelimiter | src/MfmToYaml/Readers/MfmReader.cs:90-105 | NoProgress arises only with the cursor on a `,` or `]` |
| ParserProperties.DuplicateEnumRejected | src/MfmToYaml/Readers/MfmReader.cs:55 | an enum whose name is already in the table fails with the duplicate-name error |
| ParserProperties.DuplicateFunctionRejected | src/MfmToYaml/Readers/MfmReader.cs:86 | a function whose (group, type) is already in the table fails with the duplicate-key error |
| ParserProperties.TrailingWhitespaceFails | src/MfmToYaml/Readers/MfmReader.cs:135-138 | whitespace up to the end of the buffer, after a declaration or at top level, is an out-of-range error at the buffer's length |
| ParserProperties.EnumHeaderAgrees | src/MfmToYaml/Readers/MfmReader.cs:50-54 | the name and element-type scans never look at the two bytes after the `m` |
| ParserProperties.EnumKeywordUnchecked | src/MfmToYaml/Readers/MfmReader.cs:50 | whatever two bytes follow the `m`, the enum declaration reads the same |
| Readers.MfmReader.constructor | src/MfmToYaml/Readers/MfmReader.cs:29-31 | the reader holds the buffer and the table, with its cursor at 0 |
| Readers.MfmReader.SkipComment | src/MfmToYaml/Readers/MfmReader.cs:121-126 | the cursor loop stops where CommentEnd says |
| Readers.MfmReader.SkipWhitespace | src/MfmToYaml/Readers/MfmReader.cs:128-133 | the cursor loop stops where WhitespaceEnd says |
| Readers.MfmReader.IsSpecialChar | src/MfmToYaml/Readers/MfmReader.cs:135-138 | tells whether the byte under the cursor is `m`, `[` or `#`; at the end of the buffer it fails with out-of-range |
| Readers.MfmReader.ReadSpan | src/MfmToYaml/Readers/MfmReader.cs:152-160 | returns what Lexer.ReadSpan says and moves the cursor to the token's end |
| Readers.MfmReader.ReadString | src/MfmToYaml/Readers/MfmReader.cs:146-150 | the token's bytes, or the slice failure past the end |
| Readers.MfmReader.ReadNumber | src/MfmToYaml/Readers/MfmReader.cs:140-144 | the value and end ReadInteger gives, or its error |
| Readers.MfmReader.SelectState | src/MfmToYaml/Readers/MfmReader.cs:106-116 | the state Dispatch selects, with the cursor where Dispatch leaves it, or Dispatch's error |
| Readers.MfmReader.EnumHeader | src/MfmToYaml/Readers/MfmReader.cs:49-58 | the cursor and the table end exactly as StepEnum says, and the new enum's position is returned |
| Readers.MfmReader.EnumTail | src/MfmToYaml/Readers/MfmReader.cs:53-56 | once the name is read, the cursor and the table end exactly as EnumNamed says, and the new enum's position is returned |
| Readers.MfmReader.EnumValue | src/MfmToYaml/Readers/MfmReader.cs:59-73 | the cursor and the table end exactly as StepEnumValue says, including its hand-over to dispatch |
| Readers.MfmReader.FunctionHeader | src/MfmToYaml/Readers/MfmReader.cs:74-89 | the cursor and the table end exactly as StepFunction says, and the new function's position is returned |
| Readers.MfmReader.ReadKey | src/MfmToYaml/Readers/MfmReader.cs:75-82 | the key read, and the cursor left one byte past the type, as ReadFunctionKey says |
| Readers.MfmReader.ReadKeyTail | src/MfmToYaml/Readers/MfmReader.cs:78-81 | once the group is read, the key and the cursor end exactly as ReadKeyType says |
| Readers.MfmReader.Parameter | src/MfmToYaml/Readers/MfmReader.cs:90-105 | the cursor and the table end exactly as one ParameterIteration pass says |
| Readers.MfmReader.Iteration | src/MfmToYaml/Readers/MfmReader.cs:42-117 | one pass of the while loop leaves the cursor, the table and the locals exactly as Step says, or fails with Step's error |
| Readers.MfmReader.Read | src/MfmToYaml/Readers/MfmReader.cs:33-119 | the loop succeeds exactly when Run does, leaving the cursor at the end and the table Run builds; otherwise it fails with Run's error |
| MfmToYaml.Mfm.Empty | src/MfmToYaml/Mfm.cs:10-11 | both dictionaries start empty |
| MfmToYaml.Mfm.AddEnum | src/MfmToYaml/Readers/MfmReader.cs:55 | a taken name fails with the duplicate-name error and leaves the table unchanged; otherwise the enum goes after all others and nothing else changes |
| MfmToYaml.Mfm.AddFunction | src/MfmToYaml/Readers/MfmReader.cs:86 | a taken (group, type) fails with the duplicate-key error and leaves the table unchanged; otherwise the function goes after all others and nothing else changes |
| MfmToYaml.Mfm.AddEnumValue | src/MfmToYaml/Readers/MfmReader.cs:71 | the pair goes to the end of that enum's list and nothing else changes |
| MfmToYaml.Mfm.AddParameter | src/MfmToYaml/Readers/MfmReader.cs:103 | the parameter goes to the end of that function's list and nothing else changes |
| MfmToYaml.Mfm.FormatNames | src/MfmToYaml/Mfm.cs:18-34 | the pass fails exactly when some name it formats is empty, with out-of-range at 0; on success the table is the formatted table |
| MfmToYaml.Mfm.FormatFunctionNamesInPlace | src/MfmToYaml/Mfm.cs:18-27 | the function loop succeeds exactly when every function is formattable against the enum names; it leaves the functions formatted and the enums untouched |
| MfmToYaml.Mfm.FormatEnumNamesInPlace | src/MfmToYaml/Mfm.cs:29-34 | the enum loop succeeds exactly when every enum is formattable; it leaves the enums formatted and the functions untouched |
| MfmToYaml.FormatFunctionNames | src/MfmToYaml/Mfm.cs:19-26 | one function's calls succeed exactly when its name, its parameter names and its enum-typed parameter types are non-empty; the result is the formatted function |
| MfmToYaml.FormatParameterNames | src/MfmToYaml/Mfm.cs:20-25 | one parameter succeeds exactly when its name is non-empty and, if its type names an enum, so is the type; the result is the formatted parameter |
| MfmToYaml.FormatEnumNames | src/MfmToYaml/Mfm.cs:30-33 | one enum succeeds exactly when its name and every value name are non-empty; the result capitalises them and keeps the element type |
| MfmToYaml.Mfm.Write | src/MfmToYaml/Mfm.cs:37-83 | succeeds exactly when WriteEvents of the table does, with exactly its events; otherwise fails with its error (on failure the events the source had already emitted are not stated; src/MfmToYaml/Program.cs writes the file only after `Write` returns, so they are never observed) |
| MfmToYaml.WriteEnums | src/MfmToYaml/Mfm.cs:42-52 | the loop emits each enum's events in table order |
| MfmToYaml.WriteFunctions | src/MfmToYaml/Mfm.cs:60-80 | the loop over the functions, with one reused 24-byte buffer, emits exactly FunctionsEvents |
| MfmToYaml.WriteEnum | src/MfmToYaml/Mfm.cs:43-51 | one enum's events: its name, then its values as a nested mapping in stored order |
| MfmToYaml.WriteFunction | src/MfmToYaml/Mfm.cs:69-79 | one function's events: key, `!`-name tag, a sequence of `!`-type-tagged parameter names in order |
| MfmToYaml.FormatInto | src/MfmToYaml/Mfm.cs:64 | TryFormat into the rest of the buffer: writes the rendering when it fits and nothing otherwise, and leaves the bytes before the offset alone |
| MfmToYaml.WriteHead | src/MfmToYaml/Mfm.cs:64-66 | the buffer starts with `[`, the group (when it fits) and `, ` |
| MfmToYaml.CloseKey | src/MfmToYaml/Mfm.cs:68 | `]` lands at the offset when it is inside the buffer, and the scalar is the buffer up to it; past the buffer it fails with out-of-range and writes nothing |
| MfmToYaml.WriteFields | src/MfmToYaml/Mfm.cs:64-67 | after the `[`, the buffer holds the group when it fits, then `, `, then the type when it fits in the room left; the returned offset of `]` is 3 plus both rendering sizes and at most 24 |
| MfmToYaml.FormatKey | src/MfmToYaml/Mfm.cs:64-69 | filling the reused buffer yields exactly KeyScalar, whatever an earlier key left in it |
| Events.TryFormat | src/MfmToYaml/Mfm.cs:64 | the rendering is written exactly when it fits the room left, and nothing otherwise |
| Events.KeyScalar | src/MfmToYaml/Mfm.cs:60-69 | a key scalar has 4 to 24 bytes, from `[` to `]`; the only failure is out-of-range at 24 |
| Events.KeyScalarFrom | src/MfmToYaml/Mfm.cs:64-68 | the scalar is `[` group `, ` type `]` when `]` lands inside the buffer, and an out-of-range error at its offset otherwise |
| Events.KeyScalarFits | src/MfmToYaml/Mfm.cs:60-69 | with at most 20 bytes of digits and signs, the key is written exactly as intended and nothing from an earlier key shows |
| Events.KeyFitsUnlessVeryNegative | src/MfmToYaml/Mfm.cs:60-68 | unless a value is at most -1 000 000 000, the key fits and is written as intended |
| Events.KeyScalarOverrun | src/MfmToYaml/Mfm.cs:67-68 | with 21 bytes of digits the type fills the buffer and the `]` store is out of range |
| Events.KeyScalarDropsType | src/MfmToYaml/Mfm.cs:67-69 | with 22 bytes of digits the type does not fit, TryFormat writes nothing, and the key is the group alone followed by `, ]` |
| Events.DecimalTokenBytes | src/MfmToYaml/Mfm.cs:64-67 | a rendering holds only token bytes and no whitespace, so the reader takes it whole |
| Events.FunctionsEvents | src/MfmToYaml/Mfm.cs:63-80 | the second document fails only with out-of-range at 24 |
| Events.WriteEvents | src/MfmToYaml/Mfm.cs:37-83 | Write fails only with out-of-range at 24 |
| Events.FunctionsEventsSnoc | src/MfmToYaml/Mfm.cs:63-80 | one more function either stops the writer with its key's error or adds that function's events at the end |
| Events.FunctionsEventsStops | src/MfmToYaml/Mfm.cs:63-68 | once a key fails, writing the whole table fails |
| Events.FunctionsEventsFit | src/MfmToYaml/Mfm.cs:60-80 | when every key fits, every function is written with its intended key, in table order |
| Events.WideKeyMiswritten | src/MfmToYaml/Mfm.cs:60-69 | a key needing more than 20 bytes of digits is never written as intended |
| Events.DecodeValuesInverts | src/MfmToYaml/Mfm.cs:46-49 | enum-value events read back as the same pairs in the same order |
| Events.DecodeEnumsInverts | src/MfmToYaml/Mfm.cs:42-52 | the first document reads back as every enum's name and values, in table order |
| Events.DecodeEnumEntry | src/MfmToYaml/Mfm.cs:43-51 | one enum's events read back as its name and values |
| Events.DecodeParametersInverts | src/MfmToYaml/Mfm.cs:74-77 | the tagged parameter names read back as the (type, name) pairs in order |
| Events.DecodeKeyInverts | src/MfmToYaml/Mfm.cs:60-69 | the intended key text reads back as its (group, type) |
| Events.DecodeBodyInverts | src/MfmToYaml/Mfm.cs:64-67 | the text between the brackets reads back as (group, type) |
| Events.DroppedTypeUnreadable | src/MfmToYaml/Mfm.cs:67-69 | a key whose type was dropped is written, but does not read back as any key |
| Events.DecodeFunctionsInverts | src/MfmToYaml/Mfm.cs:63-80 | the second document, with intended keys, reads back as the functions in full, in table order |
| Events.DecodeFunctionEntry | src/MfmToYaml/Mfm.cs:69-79 | one function's events read back as that function |
| Events.DecodeEntryWithKey | src/MfmToYaml/Mfm.cs:69-79 | under any key text that decodes to its key, one function's events read back as that function |
| Events.WriteRoundTrip | src/MfmToYaml/Mfm.cs:37-83 | when every key fits, Write succeeds and its events read back as the enums' names and values and the functions in full, with nothing left over |
| KeyRoundTrip.EncodeKeyRoundTrip | src/MfmToYaml/Readers/MfmReader.cs:75-82 | the key text Write intends, read by the reader's header code, gives back the same (group, type), with the cursor just past `]`, whatever follows |
| KeyRoundTrip.KeyRead | src/MfmToYaml/Readers/MfmReader.cs:75-82 | any `[` g `, ` t `]` made of two number tokens reads back as their values |
| KeyRoundTrip.RenderingIsNumberToken | src/MfmToYaml/Mfm.cs:64-67 | every rendering of a 32-bit value is a number token for that value |
| KeyRoundTrip.SeparatorSkipped | src/MfmToYaml/Readers/MfmReader.cs:78-79 | after the comma, only the single space is skipped |
| KeyRoundTrip.FieldRead | src/MfmToYaml/Readers/MfmReader.cs:140-144 | a number token followed by `,` or `]` is read whole, with its value |
| Names.FormatName | src/MfmToYaml/Mfm.cs:85-91 | fails exactly on an empty name, with out-of-range at 0; otherwise the length and every byte after the first are kept, and the first byte is upper-cased if it was a lower-case letter and kept otherwise |
| Names.FormatNameIdempotent | src/MfmToYaml/Mfm.cs:85-91 | formatting a formatted name changes nothing |
| Names.FormatTables | src/MfmToYaml/Mfm.cs:18-34 | the pass fails exactly when some name it formats is empty |
| Names.FormatPreservesShape | src/MfmToYaml/Mfm.cs:13-35 | the pass adds, removes and reorders nothing; keys, counts, values and element types are kept, and each name keeps its length |
| Names.FormattedNamesStartUpper | src/MfmToYaml/Mfm.cs:18-34 | after the pass no function, parameter, enum or enum-value name starts with a lower-case letter |
| Names.ParameterTypeFollowsEnumName | src/MfmToYaml/Mfm.cs:23-30 | a parameter type changes only if it named an enum before the pass, and then it becomes that enum's formatted name |
| Names.CapitalizedIdempotent | src/MfmToYaml/Mfm.cs:89 | capitalising twice is capitalising once |
| Names.FormattedTablesIdempotent | src/MfmToYaml/Mfm.cs:18-34 | running the pass on its own output changes nothing |
| Names.FormatKeepsFunctionKeys | src/MfmToYaml/Mfm.cs:18-27 | function keys stay unique through the pass |
| Names.EnumNamesMayMerge | src/MfmToYaml/Mfm.cs:29-30 | two enums named `kind` and `Kind`, distinct before the pass, both end up named `Kind` |
| Conversion.Loaded | src/MfmToYaml/Mfm.cs:13-35 | loading succeeds exactly when the reader succeeds and every formatted name is non-empty; the result is the formatted table; a pass failure is out-of-range at 0 |
| Conversion.NewMfm | src/MfmToYaml/Mfm.cs:13-35 | the constructor returns a fresh table holding exactly what Loaded gives, or Loaded's error |
| Conversion.LoadedWellFormed | src/MfmToYaml/Mfm.cs:13-35 | a loaded table has unique function keys, and every function and enum name starts with a byte that is not lower-case |
| Scenarios.StrayByteRejected | src/MfmToYaml/Readers/MfmReader.cs:108-114 | a buffer opening with `@` fails as an unexpected character at offset 0 |
| Scenarios.KeyOneTwo | src/MfmToYaml/Readers/MfmReader.cs:75-82 | `[1, 2]` reads as (1, 2) and ends just past its `]` |
| Scenarios.FunctionOpens | src/MfmToYaml/Readers/MfmReader.cs:106-111 | a buffer opening with `[` enters the Function state at offset 0 |
| Scenarios.HeaderStep | src/MfmToYaml/Readers/MfmReader.cs:74-89 | the header `[1, 2] x` adds the function (1, 2) named `x` and enters the parameter state |
| Scenarios.HeaderRead | src/MfmToYaml/Readers/MfmReader.cs:74-89 | from the start, such a buffer runs on from just after its header |
| Scenarios.TrailingNewlineFails | src/MfmToYaml/Readers/MfmReader.cs:135-138 | `[1, 2] x` followed by a newline fails with out-of-range at 9 |
| Scenarios.SecondHeaderOpens | src/MfmToYaml/Readers/MfmReader.cs:93-97 | a `[` after the first header hands over from the parameter state to a new header |
| Scenarios.SecondHeaderRepeats | src/MfmToYaml/Readers/MfmReader.cs:86 | a second `[1, 2]` header fails with the duplicate-key error |
| Scenarios.DuplicateHeaderRejected | src/MfmToYaml/Readers/MfmReader.cs:86 | a buffer with two `[1, 2]` headers fails with the duplicate-key error |
| Scenarios.GroupMissing | src/MfmToYaml/Readers/MfmReader.cs:75-77 | a space after `[` leaves an empty group token, which is a format error |
| Scenarios.SpaceBeforeGroupRejected | src/MfmToYaml/Readers/MfmReader.cs:75-77 | a buffer opening with `[ ` fails with that format error |
| Scenarios.CommaPasses | src/MfmToYaml/Readers/MfmReader.cs:90-104 | at ` ,` after a header, the first pass appends ("", "") and moves onto the `,`, and the second stands still there |
| Scenarios.StrayCommaStalls | src/MfmToYaml/Readers/MfmReader.cs:90-104 | `[1, 2] x ,` never gets past the `,`: NoProgress at 9 |
| Scenarios.KindTrimmed | src/MfmToYaml/Readers/MfmReader.cs:99 | `{kind}` trims to `kind` |
| Scenarios.BracedTokens | src/MfmToYaml/Readers/MfmReader.cs:99-101 | in `{kind} k`, the scans find the tokens `{kind}` and `k` |
| Scenarios.BracedPass | src/MfmToYaml/Readers/MfmReader.cs:99-103 | the pass over `{kind} k` appends ("kind", "k") |
| Scenarios.BracedStep | src/MfmToYaml/Readers/MfmReader.cs:90-105 | that pass reaches the end of the document |
| Scenarios.KindAppended | src/MfmToYaml/Readers/MfmReader.cs:103 | the table then holds function (1, 2) `f` with the single parameter ("kind", "k") |
| Scenarios.FunctionWithParameter | src/MfmToYaml/Readers/MfmReader.cs:33-119 | `[1, 2] f {kind} k` parses to that table |
| Scenarios.UnknownTypeKeepsCase | src/MfmToYaml/Mfm.cs:18-27 | loading it capitalises `f` and `k` but keeps `kind`, which names no enum |
| Scenarios.EnumOpens | src/MfmToYaml/Readers/MfmReader.cs:106-111 | from the start, a buffer opening with `m` runs on as from the FunctionEnum state at offset 0 |
| Scenarios.WordRead | src/MfmToYaml/Readers/MfmReader.cs:152-160 | a word of token bytes closed by the end or by a delimiter is read whole |
| Scenarios.KindHeaderTokens | src/MfmToYaml/Readers/MfmReader.cs:49-54 | in `map Kind int 0 Foo 1 Bar`, the header scans find the tokens `Kind` and `int` |
| Scenarios.KindHeaderStep | src/MfmToYaml/Readers/MfmReader.cs:49-58 | the header adds the enum `Kind` of type `int` with no values and enters the value state at offset 12 |
| Scenarios.FooTokens | src/MfmToYaml/Readers/MfmReader.cs:62-70 | the first value scans find the tokens `0` and `Foo` |
| Scenarios.FooStep | src/MfmToYaml/Readers/MfmReader.cs:59-73 | the first value pass appends (0, "Foo") to `Kind` |
| Scenarios.BarTokens | src/MfmToYaml/Readers/MfmReader.cs:62-70 | the second value scans find the tokens `1` and `Bar` |
| Scenarios.BarStep | src/MfmToYaml/Readers/MfmReader.cs:59-73 | the second value pass appends (1, "Bar") and reaches the end of the buffer |
| Scenarios.BarRun | src/MfmToYaml/Readers/MfmReader.cs:59-73 | after `0 Foo`, the run appends (1, "Bar") and stops at the end of the buffer with the table as it is |
| Scenarios.KindValuesRun | src/MfmToYaml/Readers/MfmReader.cs:59-73 | from the value state after the header, the run appends (0, "Foo") then (1, "Bar") and stops at the end of the buffer |
| Scenarios.KindEnumRead | src/MfmToYaml/Readers/MfmReader.cs:33-119 | `map Kind int 0 Foo 1 Bar` parses to the single enum `Kind` of type `int` with the values (0, "Foo") then (1, "Bar"), in input order |
| Scenarios.WideKeyOverruns | src/MfmToYaml/Mfm.cs:60-68 | the key (-2147483648, 1000000000) overruns the buffer |
| Scenarios.WidestKeyLosesType | src/MfmToYaml/Mfm.cs:64-69 | the key (-2147483648, -1000000000) loses its type: 15 bytes, ending in `, ]`, and it does not read back |

## Left out

- `src/MfmToYaml/Program.cs` is not part of this model. It prints a banner, handles arguments and reads and writes files, so it is I/O only.
- The YAML text that the VYaml emitter produces is not modelled (quoting, indentation, tag syntax). That is a foreign library; `Write` is modelled as the list of calls it makes on the emitter, and creating the emitter over a buffer writer is not modelled.
- Readers.MfmReader.ReadString: returns the token's bytes; the UTF-8 decoding of `Encoding.UTF8.GetString` is not modelled (bytes are treated as Latin-1 characters).
- Bytes.ToUpper: assumes a current culture in which `i` upper-cases to `I`, and upper-cases only ASCII `a`-`z`. `char.ToUpper` at src/MfmToYaml/Mfm.cs:89 uses the current culture, and src/MfmToYaml/Program.cs never sets one. Under a Turkish or Azeri culture the source turns a leading `i` into U+0130 (`İ`), which a one-byte model cannot represent. Other non-ASCII characters are not upper-cased either.
- Numbers.ParseInteger: models an optional sign, decimal digits and the range check of `int.Parse`/`long.Parse` with the invariant number format. The white space and trailing NULs that .NET's `NumberStyles.Integer` accepts are not modelled: it skips bytes 0x09-0x0D and space before and after the number and accepts trailing NUL bytes. Vertical tab (0x0B), form feed (0x0C) and NUL do not end a token here, so the tokens `\x0B5` and `5\0` parse as 5 in the source but are format errors in the model.
- Numbers.Decimal: renders negative values with the ASCII `-`, as the invariant culture does. The source's `TryFormat` calls at src/MfmToYaml/Mfm.cs:64 and :67 pass no format provider, so they use the current culture's negative sign. Some cultures use U+2212, which takes 3 bytes in UTF-8. That would change the buffer arithmetic of the 24-byte key. The reader, which parses with the invariant culture, would then not read such a key back. The model covers only cultures whose negative sign is `-`.
- MfmToYaml.Mfm.FormatNames: the in-place character write into strings that are already dictionary keys, and its effect on hash placement, are not modelled. Formatting is a rewrite of the entries that keeps their order, and a name's new text is not shared with other strings.
- MfmToYaml.Mfm.FormatNames: when a name is empty, the source has already formatted the names before it, and the model does not say what the table then holds. The constructor throws, so no caller can see that table.
- Readers.MfmReader.Read: on failure, the model does not say what partial table the reader leaves behind. The `Mfm` constructor throws, so no caller can see it.
- ParserSpec.StepParameter: where the source's parameter loop would run forever, appending ("", "") on every pass, the model stops with `NoProgress`. `ParserProperties.ParameterStallsForever` proves that the source's passes repeat for ever.
- RunExtends: states over the whole loop only that tables and lists grow at their ends. Which bytes each stored entry or pair came from is stated one step at a time (ParserSpec.StepEnumMeaning, ParserSpec.StepEnumValue, ParserSpec.StepFunction, ParserSpec.ParameterIterationMeaning) and for one whole document in Scenarios.KindEnumRead, not as a single statement over an arbitrary run.
- The reader is a `ref struct` over a `Span<byte>`. It is modelled as a class over an immutable byte sequence, since the reader never writes to the buffer.
- The `FunctionEnum` and `Function` records, and the references `currentEnum` and `currentFunction`, are modelled as values and positions in the table. No aliasing of a current record with its table entry is modelled beyond that.
