# jasm front end, modelled in Dafny

jasm is an assembler for the Java Virtual Machine. It reads a text file of
directives (`.source`, `.class`/`.interface`/`.enum`, `.super`,
`.implements`, `.field`, `.method`, `.code` … `.end code`, `.table` …
`.end table`) and instructions, and writes one class file per class. This
project models its front end, which is everything that happens before bytes
are written, and proves properties of that model:

- **StringView** (`string_view.dfy`, `string_view_cases.dfy`). This is the
  `(source, start, end)` slice of a line that every later stage passes
  around.
  - The record checks only that both ends lie inside the source, so an
    inverted slice is representable. `substring` clamps to the source, not
    to the view.
  - `firstWord`, `indexOf`, `trim`, `isBlank` and `split` are methods with
    loops. Each is proved against a recursive specification on the view's
    text.
  - The older copy of the record shares all of this except its
    quote-unaware `indexOf`. Its unit-test cases are lemmas.
- **ErrorMessage** (`error_message.dfy`), in both copies. This covers the
  validating constructors and `format`.
  - The newer copy echoes the line after four spaces and puts the caret
    under the column.
  - The older copy right-aligns the caret text with `%Ns`. With column 0
    this throws, because `%0s` is not a valid conversion.
- **Flags** (`flags.dfy`, `legacy_flags.dfy`). This maps flag words to
  access flags and sums a list of them into a Java `int` that wraps around.
  - As written, "final" gives ACC_PROTECTED and "abstract" gives
    ACC_PRIVATE.
  - Flags are added, not or-ed, so a repeated word counts twice.
- **Operands and descriptors** (`operands.dfy`, `descriptors.dfy`,
  `legacy_operand.dfy`).
  - There is one recogniser per operand type, including string escapes.
  - Field and method descriptors are recursive-descent recognisers, each
    proved to accept exactly the texts its regular expression in the source
    matches (DescriptorMatchesPattern, MethodDescriptorMatchesPattern) and
    to round-trip every well-formed type.
  - A hexadecimal `int` operand matches the pattern but then throws
    NullPointerException, because the decimal group is null (it is modelled
    as such).
  - The older `Operand` records keep the text and interpret it in
    `value()`.
- **Instructions** (`instructions.dfy`). This covers the opcode lookup, the
  arity check, the `ldc`/`ldc2` shape tests, left-to-right operand parsing,
  the per-method label map (`computeIfAbsent`) and the switch tables.
  - The encoder's code builder is a class holding the log of emitted
    operations and a fresh-label counter.
- **The parser** (`parser*.dfy`, `legacy_parser*.dfy`). This is the
  line-oriented state machine, with states Global, Code, Table, EndOfInput
  and Aborted.
  - It is a class whose `parse` loops over the lines. It is proved against a
    specification that records every listener callback with the line and line
    number the listener would read during it.
  - The older two-state parser has these differences:
    - it has no guard against a second parse;
    - it knows no tables;
    - it takes any `.end … code` as the end of a code block;
    - it ends every parse with `endOfFile`.
- **The listener** (`listener*.dfy`, `legacy_listener*.dfy`). This is the
  builder that accumulates class specifications from the callbacks, with a
  duplicate check and a class commit. Labels wait for the next instruction.
  - The newer listener compares pending labels as views (text and offsets).
    The older one compares them by text.
  - A newer `.end code` with no method declared leaves the code block open.
    The older one throws NoSuchElementException.
- **The assembler** (`assembler*.dfy`). `assemble` runs the parse, sorts its
  diagnostics stably by position, and builds each class.
  - Building a class runs all its fields and methods first, so their
    "Invalid .field: "/"Invalid .method: " messages are still added. The
    class is then abandoned if any error exists by then, in this class or an
    earlier one.
  - In `buildMethodCode`, a `lookupswitch`/`tableswitch` must be followed by
    a table. Otherwise a diagnostic is added and the following item is left
    for the next turn.
  - As written, a switch line's own labels are not bound, while every other
    instruction binds its labels before it is emitted.
  - The encoder is a recording sink, so a built class is the record of what
    was handed to the class, field, method and code builders.

Two helper files connect the stages. `parser_views.dfy` and
`listener_views.dfy` prove that every view the parser hands out, and the
listener keeps, lies inside its line and is not inverted. So the assembler's
`toString()` calls never throw.

The model takes these things as parameters:
- the opcode enumeration (`Opcode.values()`), as a list of opcode
  descriptions: name, constant name and operand types. Each description
  also carries the arm of `enter`'s switch the opcode falls in (its
  `form`, with the slot of `aload_0` .. `lstore_3`). In the source that
  assignment is made by the case lists of the switch itself, not by the
  enumeration; the model takes it as part of the parameter (see
  "## Left out");
- `Character.isAlphabetic`, as a predicate on characters;
- acceptance by `Float.parseFloat`/`Double.parseDouble`, as a predicate on
  texts;
- the message text of runtime exceptions, as a function of the exception.

## Model

| member | source | states |
|---|---|---|
| StringViews.Make | src/edu/westminsteru/jasm/parser/StringView.java:32-41 | the record constructor accepts a range exactly when both ends lie within the string, and throws StringIndexOutOfBoundsException otherwise |
| StringViews.Of | src/edu/westminsteru/jasm/parser/StringView.java:48-50 | the view of a whole string is valid, not inverted, and its text is the string |
| StringViews.View.ToString | src/edu/westminsteru/jasm/parser/StringView.java:243-245 | toString() throws exactly on an inverted view; otherwise it returns the covered characters, length() of them |
| StringViews.View.Substring | src/edu/westminsteru/jasm/parser/StringView.java:142-150 | substring(a, b) shifts both ends by start and clamps them to the string's length; it throws exactly when a shifted end is negative |
| StringViews.View.SubstringFrom | src/edu/westminsteru/jasm/parser/StringView.java:158-160 | substring(a) keeps the end and clamps the shifted start; it throws exactly when that start is negative |
| StringViews.SubstringWithin | src/edu/westminsteru/jasm/parser/StringView.java:142-150 | offsets within the view always succeed and give that slice of the view's text |
| StringViews.SubstringClampsToSource | src/edu/westminsteru/jasm/parser/StringView.java:145-148 | offsets past the view reach into the rest of the string and are clamped only at its end |
| StringViews.View.Tail | src/edu/westminsteru/jasm/parser/StringView.java:206-210 | tail(head) throws IllegalArgumentException exactly when the head views another string (compared by content, see Left out), and otherwise runs from head's end to this view's end |
| StringViews.TailAfterPrefix | src/edu/westminsteru/jasm/parser/StringView.java:206-210 | a head at the start of the view plus its tail is the view's text |
| StringViews.ScanFrom | src/edu/westminsteru/jasm/parser/StringView.java:122-133 | the scan from i returns the first unquoted delimiter at or after i, or -1 when there is none |
| StringViews.DelimiterIndex | src/edu/westminsteru/jasm/parser/StringView.java:122-133 | the index of the first unquoted occurrence of the character; -1 exactly when there is none |
| StringViews.View.IndexOf | src/edu/westminsteru/jasm/parser/StringView.java:122-133 | the loop, quote flag and all, returns that first unquoted index |
| StringViews.View.IndexOfChar | src/edu/westminsteru/jasm/parser/StringView.java:107-112 | the first index holding the character, -1 exactly when there is none |
| StringViews.View.WordBefore | src/edu/westminsteru/jasm/parser/StringView.java:68-81 | firstWord starts where the view starts, ends no later, and is empty for an empty view |
| StringViews.View.FirstWord | src/edu/westminsteru/jasm/parser/StringView.java:68-81 | the loop over code points yields that word |
| StringViews.WordBeforeText | src/edu/westminsteru/jasm/parser/StringView.java:68-81 | the word is the prefix of the text up to the first unquoted delimiter, which ends it when the text goes on |
| StringViews.WordHasNoDelimiter | src/edu/westminsteru/jasm/parser/StringView.java:72-77 | no word holds an unquoted delimiter |
| StringViews.LastSolid | src/edu/westminsteru/jasm/parser/StringView.java:170-171 | trim's first loop stops at the last non-whitespace character, or at -1 |
| StringViews.FirstSolid | src/edu/westminsteru/jasm/parser/StringView.java:173-174 | trim's second loop stops at the first non-whitespace character |
| StringViews.View.Trimmed | src/edu/westminsteru/jasm/parser/StringView.java:167-177 | trim() stays inside a non-empty view, collapses a blank one to its start, and leaves non-whitespace at both ends of what it keeps |
| StringViews.View.Trim | src/edu/westminsteru/jasm/parser/StringView.java:167-177 | the two loops compute that view |
| StringViews.TrimmedText | src/edu/westminsteru/jasm/parser/StringView.java:167-177 | the trimmed text is a slice with only whitespace cut off on either side |
| StringViews.TrimIdempotent | src/edu/westminsteru/jasm/parser/StringView.java:167-177 | trimming twice is trimming once |
| StringViews.TrimSolidEnds | src/edu/westminsteru/jasm/parser/StringView.java:167-177 | a view with non-whitespace at both ends is left as it is |
| StringViews.View.IsBlank | src/edu/westminsteru/jasm/parser/StringView.java:184-189 | true exactly when every covered character is whitespace |
| StringViews.View.AfterWord | src/edu/westminsteru/jasm/parser/StringView.java:223 | the split loop's next tail starts one past the word, clamped to the string, and keeps the view's end |
| StringViews.View.Split | src/edu/westminsteru/jasm/parser/StringView.java:218-227 | the loop collects Words(ch, q), the recursive definition that WordsUnfold, SplitJoin, SplitAdjacent and SplitSegments characterise: the successive first words, rebuilding the text, adjacent and inside the view |
| StringViews.WordsUnfold | src/edu/westminsteru/jasm/parser/StringView.java:221-225 | a non-empty view splits into its first word and then the words of what follows the delimiter |
| StringViews.WordSplitsText | src/edu/westminsteru/jasm/parser/StringView.java:221-225 | the text is the word, the delimiter and the rest, or just the word when no delimiter follows |
| StringViews.SplitJoin | src/edu/westminsteru/jasm/parser/StringView.java:218-227 | joining the words with the delimiter gives back the text, or the text less one trailing delimiter |
| StringViews.SplitAdjacent | src/edu/westminsteru/jasm/parser/StringView.java:218-227 | the first word starts at the view's start and each later word starts one past the previous word's end |
| StringViews.SplitSegments | src/edu/westminsteru/jasm/parser/StringView.java:218-227 | every word is a valid, non-inverted slice of the view with no unquoted delimiter in it |
| StringViewCases.FirstWordStopsAtSpace | test/edu/westminsteru/cmpt355/jasm/parser/StringViewTest.java:17 | "abc 123" with quotes kept has first word "abc" |
| StringViewCases.FirstWordSkipsQuotedSpace | test/edu/westminsteru/cmpt355/jasm/parser/StringViewTest.java:18 | a space inside quotes does not end the word when quotes are honoured |
| StringViewCases.FirstWordLeadingSpace | test/edu/westminsteru/cmpt355/jasm/parser/StringViewTest.java:19 | a leading space gives an empty first word |
| StringViewCases.FirstWordKeepsQuote | test/edu/westminsteru/cmpt355/jasm/parser/StringViewTest.java:20 | with quotes kept as ordinary characters the quoted space ends the word |
| StringViewCases.FirstWordOfEmpty | test/edu/westminsteru/cmpt355/jasm/parser/StringViewTest.java:21-22 | an empty view, also one at the string's end, has an empty first word |
| StringViewCases.TrimUntouched | test/edu/westminsteru/cmpt355/jasm/parser/StringViewTest.java:27 | "abc" trims to itself |
| StringViewCases.TrimLeading | test/edu/westminsteru/cmpt355/jasm/parser/StringViewTest.java:28 | a leading space is cut |
| StringViewCases.TrimTrailing | test/edu/westminsteru/cmpt355/jasm/parser/StringViewTest.java:29 | a trailing space is cut |
| StringViewCases.TrimBothEnds | test/edu/westminsteru/cmpt355/jasm/parser/StringViewTest.java:30 | spaces at both ends are cut |
| StringViewCases.TrimBlank | test/edu/westminsteru/cmpt355/jasm/parser/StringViewTest.java:31-32 | the empty and an all-blank string trim to "" |
| StringViewCases.TailCase | test/edu/westminsteru/cmpt355/jasm/parser/StringViewTest.java:37-38 | the tail after the first word of "abc 123" is " 123" |
| StringViewCases.SplitThreeWords | test/edu/westminsteru/cmpt355/jasm/parser/StringViewTest.java:43 | "abc 123 xyz" splits into its three words |
| StringViewCases.SplitLastTwo | src/edu/westminsteru/jasm/parser/StringView.java:218-227 | a view starting inside the string splits only what it covers |
| StringViewCases.SplitLeadingDelimiter | test/edu/westminsteru/cmpt355/jasm/parser/StringViewTest.java:44 | a leading space gives an empty first word, then "abc" |
| Chars.ParseInt32 | src/edu/westminsteru/cmpt355/jasm/Operands.java:104 | Integer.parseInt returns only values of a 32-bit int; anything else is a NumberFormatException |
| Chars.IntToStringRoundTrip | src/edu/westminsteru/cmpt355/jasm/Operands.java:104 | every 32-bit int written in decimal parses back to itself |
| Chars.LongToStringRoundTrip | src/edu/westminsteru/cmpt355/jasm/Operands.java:134 | every 64-bit long written in decimal parses back to itself with Long.parseLong |
| Chars.ParseInt32Examples | src/edu/westminsteru/cmpt355/jasm/Operands.java:104 | a sign is optional, a lone sign, an empty text or a trailing letter does not parse |
| Chars.ParseInt32Overflow | src/edu/westminsteru/cmpt355/jasm/Operands.java:104 | 2147483648 is out of range and does not parse |
| ErrorMessages.Make | src/edu/westminsteru/jasm/ErrorMessage.java:26-34 | the record is built exactly when the message is not blank and both numbers are at least UNSPECIFIC; otherwise the first failing check's IllegalArgumentException with its exact text |
| ErrorMessages.MakeUnplaced | src/edu/westminsteru/jasm/ErrorMessage.java:40-42 | the one-argument constructor has no source line and UNSPECIFIC line and column, and fails exactly on a blank message |
| ErrorMessages.PadLeft | src/edu/westminsteru/jasm/ErrorMessage.java:57 | a %Ns conversion right-aligns its argument in N columns with spaces and never truncates |
| ErrorMessages.Format | src/edu/westminsteru/jasm/ErrorMessage.java:48-61 | the formatted text is Header ("Error[ at line N]: message\n") followed by Echo, and is only that header when there is no source line; FormatCaretLine, CaretUnderColumn, FormatLineCount and EchoNewlines characterise the echoed line and the caret |
| ErrorMessages.FormatCaretLine | src/edu/westminsteru/jasm/ErrorMessage.java:54-58 | with a source line and a column, the line is echoed after four spaces and followed by column + 3 spaces, the caret and a newline |
| ErrorMessages.CaretUnderColumn | src/edu/westminsteru/jasm/ErrorMessage.java:54-58 | for a column within the line, the caret lands exactly under that column's character of the echoed line |
| ErrorMessages.FormatLineCount | src/edu/westminsteru/jasm/ErrorMessage.java:48-61 | the formatted message has one line, two with a source line, three with a column too |
| ErrorMessages.EchoNewlines | src/edu/westminsteru/jasm/ErrorMessage.java:54-58 | the part after the header adds no line, one line, or two lines |
| LegacyErrorMessages.Format | src/edu/westminsteru/cmpt355/jasm/ErrorMessage.java:39-52 | the older format echoes the line without indent; it throws exactly when a source line is present and the column is 0 (the format string "%0s"); otherwise it starts with the header |
| LegacyErrorMessages.LegacyCaretPlacement | src/edu/westminsteru/cmpt355/jasm/ErrorMessage.java:45-49 | the older caret text is padded to the column and ends at it from column 3 on, and is never cut |
| Flags.Flag | src/edu/westminsteru/jasm/Flags.java:29-50 | flag(word) returns a bit exactly for the fifteen known words, and otherwise throws "Unknown flag: " + word |
| Flags.IsValidFlag | src/edu/westminsteru/jasm/Flags.java:57-64 | isValidFlag holds exactly for the words flag accepts |
| Flags.Wrap32 | src/edu/westminsteru/jasm/Flags.java:20 | the int sum wraps into the 32-bit range and leaves 32-bit values unchanged |
| Flags.WrapAdd | src/edu/westminsteru/jasm/Flags.java:20 | wrapping a partial sum before adding changes nothing |
| Flags.MapToIntSum | src/edu/westminsteru/jasm/Flags.java:20 | the stream sum returns exactly when every word maps; otherwise it throws one of the words' exceptions |
| Flags.MapToIntSumIsWrappedSum | src/edu/westminsteru/jasm/Flags.java:20 | when every word maps, the stream sum is the plain sum of the bits wrapped to 32 bits |
| Flags.MapToIntSumFirstFailure | src/edu/westminsteru/jasm/Flags.java:20 | the exception thrown is the first failing word's |
| Flags.PlainSumPermutation | src/edu/westminsteru/jasm/Flags.java:20 | reordering the words keeps every word mapped and keeps the plain sum |
| Flags.FlagsOf | src/edu/westminsteru/jasm/Flags.java:19-21 | flags(words) returns exactly when every word is valid, and its result is a 32-bit int |
| Flags.FlagsOfUnknown | src/edu/westminsteru/jasm/Flags.java:19-21 | an unknown word after only known ones makes flags throw "Unknown flag: " + that word |
| Flags.FlagsOfPermutation | src/edu/westminsteru/jasm/Flags.java:19-21 | the order of the flag words does not matter |
| Flags.FlagsOfAppend | src/edu/westminsteru/jasm/Flags.java:19-21 | flags of two lists joined is the wrapped sum of their flags |
| Flags.FinalAndAbstractAsWritten | src/edu/westminsteru/jasm/Flags.java:35-36 | "final" yields ACC_PROTECTED rather than ACC_FINAL and "abstract" yields ACC_PRIVATE rather than ACC_ABSTRACT |
| Flags.RepeatedBitsAdd | src/edu/westminsteru/jasm/Flags.java:19-21 | bits are added, not or-ed: protected final gives ACC_STATIC and public public gives ACC_PRIVATE |
| Flags.FlagsOfEmpty | src/edu/westminsteru/jasm/Flags.java:19-21 | no flag words give 0 |
| LegacyFlags.Flag | src/edu/westminsteru/cmpt355/jasm/Flags.java:11-32 | the older flag(word) accepts the same fifteen words and throws "Unknown flag: " + word otherwise |
| LegacyFlags.FlagsOf | src/edu/westminsteru/cmpt355/jasm/Flags.java:7-9 | the older flags(words) returns exactly when every word is valid |
| LegacyFlags.SameAsNewer | src/edu/westminsteru/cmpt355/jasm/Flags.java:7-9 | both copies of flags give the same result on every list |
| LegacyFlags.FlagAgrees | src/edu/westminsteru/cmpt355/jasm/Flags.java:11-32 | both copies of flag agree on every word |
| Descriptors.ParseDescriptor | src/edu/westminsteru/cmpt355/jasm/Operands.java:56-60 | a text accepted as a field descriptor is the rendering of a well-formed field type |
| Descriptors.DescriptorRoundTrip | src/edu/westminsteru/cmpt355/jasm/Operands.java:56-60 | every well-formed field type's rendering is accepted and parsed back to that type |
| Descriptors.DescriptorMatchesPattern | src/edu/westminsteru/cmpt355/jasm/Operands.java:56-60 | the descriptor parser accepts exactly the texts the pattern (\[)*([BSIJFDCZ]\|L[a-zA-Z0-9_/$]+;) matches |
| Descriptors.ParseFieldTypeSound | src/edu/westminsteru/cmpt355/jasm/Operands.java:56 | whatever the field-type parser consumes is the rendering of the well-formed type it returns |
| Descriptors.ParseFieldTypeComplete | src/edu/westminsteru/cmpt355/jasm/Operands.java:56 | the rendering of any well-formed type is consumed whole and yields that type |
| Descriptors.FromPattern | src/edu/westminsteru/cmpt355/jasm/Operands.java:56 | a run of brackets before an element text names a well-formed type that renders as the text |
| Descriptors.ParseParametersSound | src/edu/westminsteru/cmpt355/jasm/Operands.java:62-65 | the parameter list consumed up to ')' is the rendering of well-formed parameter types |
| Descriptors.ParseParametersComplete | src/edu/westminsteru/cmpt355/jasm/Operands.java:62-65 | the rendering of any well-formed parameter list followed by ')' is consumed whole |
| Descriptors.ParseMethodDescriptor | src/edu/westminsteru/cmpt355/jasm/Operands.java:62-70 | a text accepted as a method descriptor is the rendering of a well-formed method type |
| Descriptors.MethodDescriptorRoundTrip | src/edu/westminsteru/cmpt355/jasm/Operands.java:62-70 | every well-formed method type, with a V or a field result, renders to a text parsed back to it |
| Descriptors.MethodDescriptorMatchesPattern | src/edu/westminsteru/cmpt355/jasm/Operands.java:62-70 | the method-descriptor parser accepts exactly the texts the pattern ^\((descriptor)*\)(descriptor\|V)$ matches |
| Descriptors.RenderedMethodMatches | src/edu/westminsteru/cmpt355/jasm/Operands.java:62-70 | the rendering of every well-formed method type matches the method-descriptor pattern |
| Descriptors.MatchedMethodParses | src/edu/westminsteru/cmpt355/jasm/Operands.java:62-70 | every text the method-descriptor pattern matches is accepted by the parser |
| Descriptors.RenderAllMatches | src/edu/westminsteru/cmpt355/jasm/Operands.java:64 | well-formed parameter types rendered back to back match the repeated descriptor group |
| Descriptors.TypesOfPattern | src/edu/westminsteru/cmpt355/jasm/Operands.java:64 | a text matching the repeated descriptor group is the rendering of a list of well-formed types |
| Descriptors.FieldOfPattern | src/edu/westminsteru/cmpt355/jasm/Operands.java:56 | a text matching the descriptor pattern is the rendering of a well-formed type |
| Descriptors.ExampleDescriptorsAccepted | src/edu/westminsteru/cmpt355/jasm/Operands.java:56-60 | [[I and LA/b; are field descriptors of the expected types |
| Descriptors.ExampleDescriptorsRejected | src/edu/westminsteru/cmpt355/jasm/Operands.java:56-60 | L; and V are not field descriptors |
| Operands.Unescape | src/edu/westminsteru/cmpt355/jasm/Operands.java:224-247 | unescape accepts exactly the nine escape letters and maps each to its character; \u and any other letter throw their own AssemblyException at the view |
| Operands.IntegerMatch | src/edu/westminsteru/cmpt355/jasm/Operands.java:100-112 | a decimal text yields its value exactly when it is in range; a hexadecimal text reaches group(2).isBlank() on a null group; anything else is "Invalid integer" |
| Operands.DecimalNotHex | src/edu/westminsteru/cmpt355/jasm/Operands.java:10-19 | the decimal and hexadecimal alternatives of the integer pattern never both match |
| Operands.ParseInt | src/edu/westminsteru/cmpt355/jasm/Operands.java:88-113 | parseInt yields only 32-bit values, throws StringIndexOutOfBounds on an empty or inverted view, and reports at the view or the view after its quote |
| Operands.CharLiteral | src/edu/westminsteru/cmpt355/jasm/Operands.java:90-98 | a quoted literal yields a value exactly for one character or a backslash and an escape letter; one character yields its code |
| Operands.ParseLong | src/edu/westminsteru/cmpt355/jasm/Operands.java:129-143 | parseLong succeeds exactly on an L-suffixed decimal text within the 64-bit range, and otherwise reports "Invalid long", except that a hexadecimal body throws NullPointerException (group(2) is null) and an inverted view throws StringIndexOutOfBounds |
| Operands.ParseFloat | src/edu/westminsteru/cmpt355/jasm/Operands.java:115-127 | an f-suffixed text is handed to the float parser without its suffix, an fb-suffixed one is read as 32-bit bits; failures report "Invalid float" |
| Operands.ParseDouble | src/edu/westminsteru/cmpt355/jasm/Operands.java:145-157 | a db-suffixed text is read as 64-bit bits, any other is handed whole to the double parser; failures report "Invalid double" |
| Operands.Prefixed | src/edu/westminsteru/cmpt355/jasm/Operands.java:164-175 | prepending decoded characters keeps success and failure as they are |
| Operands.PrefixedTwice | src/edu/westminsteru/cmpt355/jasm/Operands.java:164-175 | prepending twice is prepending the joined prefix |
| Operands.ParseString | src/edu/westminsteru/cmpt355/jasm/Operands.java:159-176 | the loop that decodes a quoted string computes ParseStringSpec, which StringWithoutEscapes, UnescapeVerbatim and StringRoundTrip characterise |
| Operands.UnescapeVerbatim | src/edu/westminsteru/cmpt355/jasm/Operands.java:165-173 | characters other than backslash are copied unchanged |
| Operands.StringWithoutEscapes | src/edu/westminsteru/cmpt355/jasm/Operands.java:159-176 | a quoted string without a backslash decodes to the text between its quotes |
| Operands.EscapeLetterIsEscape | src/edu/westminsteru/cmpt355/jasm/Operands.java:224-235 | every character that has an escape letter is decoded from it |
| Operands.UnescapeEscaped | src/edu/westminsteru/cmpt355/jasm/Operands.java:165-173 | decoding an escaped text gives back the text |
| Operands.StringRoundTrip | src/edu/westminsteru/cmpt355/jasm/Operands.java:159-176 | any string, escaped and quoted, parses back to itself |
| Operands.ParseClassName | src/edu/westminsteru/cmpt355/jasm/Operands.java:178-184 | a class name is accepted exactly when it matches [a-zA-Z_$][a-zA-Z0-9$/]+, and is kept as written |
| Operands.ArrayElementOf | src/edu/westminsteru/cmpt355/jasm/Operands.java:186-198 | an element keyword is mapped to the element it spells |
| Operands.ParseArrayType | src/edu/westminsteru/cmpt355/jasm/Operands.java:186-198 | an accepted array type is one of the eight keywords as written; anything else reports "Invalid array type" |
| Operands.KeywordRoundTrip | src/edu/westminsteru/cmpt355/jasm/Operands.java:186-198 | every array element's keyword maps back to it |
| Operands.ParseText | src/edu/westminsteru/cmpt355/jasm/Operands.java:200-202 | identifiers and branch targets are the view's text, and only an inverted view throws |
| Operands.ParseDescriptor | src/edu/westminsteru/cmpt355/jasm/Operands.java:204-210 | a descriptor operand is accepted exactly when it is a field descriptor, kept as written, and otherwise reports "Invalid type descriptor" |
| Operands.ParseMethodDescriptor | src/edu/westminsteru/cmpt355/jasm/Operands.java:212-218 | a method descriptor operand is accepted exactly when it is a method descriptor, and otherwise reports "Invalid method descriptor" |
| Operands.Lift | src/edu/westminsteru/cmpt355/jasm/Operands.java:72-86 | wrapping a parsed value as an operand keeps success and passes failures on unchanged |
| Operands.ParseOperand | src/edu/westminsteru/cmpt355/jasm/Operands.java:72-86 | a parsed operand has the type that was asked for |
| Operands.TextOperandsKeepText | src/edu/westminsteru/cmpt355/jasm/Operands.java:200-202 | identifier and branch-target operands hold the view's text |
| Operands.InvertedViewCrashes | src/edu/westminsteru/cmpt355/jasm/Operands.java:72-86 | every operand type throws StringIndexOutOfBounds on an inverted view |
| Operands.IntRoundTrip | src/edu/westminsteru/cmpt355/jasm/Operands.java:88-113 | every 32-bit int written in decimal is parsed back to itself |
| Operands.LongRoundTrip | src/edu/westminsteru/cmpt355/jasm/Operands.java:129-143 | every 64-bit long written in decimal with an L is parsed back to itself |
| Operands.CharacterLiteral | src/edu/westminsteru/cmpt355/jasm/Operands.java:94-95 | a quoted character is its code |
| Operands.EscapedCharacterLiteral | src/edu/westminsteru/cmpt355/jasm/Operands.java:92-93 | a quoted escape is the escaped character's code; '\n' is 10 |
| Operands.HexIntCrashes | src/edu/westminsteru/cmpt355/jasm/Operands.java:103 | a hexadecimal integer operand throws NullPointerException, because group(2) is null when the hexadecimal alternative matched |
| Operands.IntOverflowRefused | src/edu/westminsteru/cmpt355/jasm/Operands.java:108-112 | 2147483648 reports "Invalid integer" |
| LegacyOperands.OrThrow | src/edu/westminsteru/cmpt355/jasm/Operand.java:11-12 | a failed parse throws NumberFormatException, a successful one returns its value |
| LegacyOperands.IntegerValue | src/edu/westminsteru/cmpt355/jasm/Operand.java:10-12 | the value is in range, and an unparseable text throws NumberFormatException |
| LegacyOperands.IntValue | src/edu/westminsteru/cmpt355/jasm/Operand.java:9-13 | Int.value() yields a 32-bit int or throws NumberFormatException |
| LegacyOperands.LongValue | src/edu/westminsteru/cmpt355/jasm/Operand.java:17-22 | Long.value() yields a 64-bit long; an empty text throws StringIndexOutOfBounds, any other failure NumberFormatException |
| LegacyOperands.StringValue | src/edu/westminsteru/cmpt355/jasm/Operand.java:38-40 | String.value() throws exactly on a text shorter than two, and otherwise drops the first and last character |
| LegacyOperands.DecimalNotHexPrefixed | src/edu/westminsteru/cmpt355/jasm/Operand.java:10 | a decimal rendering never starts with 0x |
| LegacyOperands.IntValueOfDecimal | src/edu/westminsteru/cmpt355/jasm/Operand.java:9-13 | every 32-bit int written in decimal has itself as value |
| LegacyOperands.LongValueOfDecimal | src/edu/westminsteru/cmpt355/jasm/Operand.java:17-22 | every 64-bit long written in decimal plus one suffix character has itself as value |
| LegacyOperands.HexPrefixCaseInsensitive | src/edu/westminsteru/cmpt355/jasm/Operand.java:10 | 0x and 0X prefixes are read alike |
| LegacyOperands.HexIntValue | src/edu/westminsteru/cmpt355/jasm/Operand.java:10-11 | 0x1F is 31 |
| LegacyOperands.HexIntTooWide | src/edu/westminsteru/cmpt355/jasm/Operand.java:10-11 | 0xFFFFFFFF throws NumberFormatException, since parseInt with radix 16 does not wrap |
| LegacyOperands.EightFsTooWide | src/edu/westminsteru/cmpt355/jasm/Operand.java:11 | eight hexadecimal F digits exceed the 32-bit range |
| LegacyOperands.StringValueVerbatim | src/edu/westminsteru/cmpt355/jasm/Operand.java:38-40 | a quoted string's value is the text between its quotes, escapes not decoded |
| Instructions.OpcodeMap | src/edu/westminsteru/cmpt355/jasm/Instructions.java:25-35 | the opcode table maps each name to an opcode of that name, holds every opcode except ldc and ldc2, and nothing else |
| Instructions.ParseAll | src/edu/westminsteru/cmpt355/jasm/Instructions.java:375-382 | when every operand parses, there is one parsed operand per expected type and each has its type |
| Instructions.ParseOperands | src/edu/westminsteru/cmpt355/jasm/Instructions.java:375-382 | the loop over the operands computes the operand-list specification |
| Instructions.CheckAndParseOperands | src/edu/westminsteru/cmpt355/jasm/Instructions.java:276-293 | the method computes CheckedOperands: the arity check followed by the operand parse, whose messages and positions ArityRules states and whose first failure FirstFailureWins states |
| Instructions.ArityRules | src/edu/westminsteru/cmpt355/jasm/Instructions.java:276-293 | operands to an opcode taking none are reported at the first operand; a wrong count is reported at the opcode as "takes one operand", "two operands" and so on; a success has the right count and types |
| Instructions.FirstFailureWins | src/edu/westminsteru/cmpt355/jasm/Instructions.java:378-379 | the first operand that fails to parse decides the outcome |
| Instructions.MemberEmission | src/edu/westminsteru/cmpt355/jasm/Instructions.java:148-187 | a field access or call is emitted exactly when parsed operands 0, 1 and 2 are a class name, an identifier and a field descriptor (method descriptor for a call), and then owner, name and descriptor are those operands (Emits); otherwise a cast throws and no assembly error is reported |
| Instructions.ArrayEmission | src/edu/westminsteru/cmpt355/jasm/Instructions.java:217-236 | anewarray of a one-letter (primitive) descriptor and multianewarray of a descriptor not starting with '[' fail with "Invalid operand" at operand 0, and these are its only failures; a success creates the array of the parsed element type or descriptor, with operand 1 as the dimension count for multianewarray (Emits) |
| Instructions.Emission | src/edu/westminsteru/cmpt355/jasm/Instructions.java:55-241 | a success is what Emits reads off the parsed operands for the opcode's arm, never a branch or a binding; the fixed-slot opcodes always succeed; a no-argument opcode succeeds exactly when CodeBuilder has a no-argument method of its name, and checkcast, which has none, fails with "Internal assembler error (please report)"; the default arm fails with "Internal error (please report): unhandled opcode X"; the array arms' "Invalid operand" is the only other failure |
| Instructions.EnterLdc | src/edu/westminsteru/cmpt355/jasm/Instructions.java:328-352 | an operand count other than one fails with "Opcode ldc takes one operand" at the opcode; an inverted operand throws; a success loads an int, float or string constant |
| Instructions.LdcRouting | src/edu/westminsteru/cmpt355/jasm/Instructions.java:336-351 | an operand ending in f or fb in lower case is read by parseFloat (its failure is "Invalid float"), else one starting with a quote by parseString, else by parseInt, whose refusal becomes "Invalid operand" at the operand and whose runtime exception passes through |
| Instructions.EnterLdc2 | src/edu/westminsteru/cmpt355/jasm/Instructions.java:354-373 | an operand count other than one fails with "Opcode ldc2 takes one operand" at the opcode; an inverted operand throws; a success loads a long or double constant |
| Instructions.Ldc2Routing | src/edu/westminsteru/cmpt355/jasm/Instructions.java:360-372 | an operand ending in db in lower case, or holding a '.' or an e in either case, is read by parseDouble (its failure is "Invalid double"), else by parseLong, whose refusal becomes "Invalid operand" at the operand |
| Instructions.Resolve | src/edu/westminsteru/cmpt355/jasm/Instructions.java:193-196 | computeIfAbsent returns the label already bound to a name, or binds it to a new label and adds nothing else |
| Instructions.ExtendsTransitive | src/edu/westminsteru/cmpt355/jasm/Instructions.java:193-196 | label maps only grow: growth composes |
| Instructions.TableCase | src/edu/westminsteru/cmpt355/jasm/Instructions.java:386-400 | a table row yields its parsed 32-bit value and the label of its target name; a bad value reports "Invalid integer" at the row's label and binds nothing |
| Instructions.TableCases | src/edu/westminsteru/cmpt355/jasm/Instructions.java:384-403 | parsing a table only grows the labels and yields one case per row |
| Instructions.CaseFaithfulExtends | src/edu/westminsteru/cmpt355/jasm/Instructions.java:384-403 | a case stays faithful to its row while later rows add labels |
| Instructions.TableCasesFaithful | src/edu/westminsteru/cmpt355/jasm/Instructions.java:384-403 | every case of a parsed table carries its row's value and the final label of its row's target |
| Instructions.SameTargetSameLabel | src/edu/westminsteru/cmpt355/jasm/Instructions.java:389-392 | rows naming the same target get the same label |
| Instructions.EnterSpec | src/edu/westminsteru/cmpt355/jasm/Instructions.java:37-242 | an inverted opcode throws; ldc and ldc2 are handed to their own routines; any other opcode not in the table fails with "Invalid opcode" at the opcode; none of these touches the labels, and entering an instruction only grows them |
| Instructions.EnterEmitsFromOperands | src/edu/westminsteru/cmpt355/jasm/Instructions.java:47-241 | an instruction that is neither a branch nor ldc/ldc2 is a known opcode whose operands passed the arity check and parsed, and what it emits is what Emits reads off those operands |
| Instructions.MemberFromOperands | src/edu/westminsteru/cmpt355/jasm/Instructions.java:148-187 | a field access or call has owner = operand 0 read as a class name, name = the text of operand 1, descriptor = operand 2 read as a field descriptor (getfield, putfield, getstatic, putstatic) or a method descriptor (the invokes) |
| Instructions.RowCases | src/edu/westminsteru/cmpt355/jasm/Instructions.java:384-386 | a missing table throws NullPointerException and binds nothing |
| Instructions.EnterTableSpec | src/edu/westminsteru/cmpt355/jasm/Instructions.java:244-274 | a head other than lookupswitch and tableswitch fails with "Internal error (please report): X handled as a table instruction" at the opcode; an inverted head throws; the labels only grow; a success is a lookupswitch or a tableswitch |
| Instructions.LookupSwitchFromOperands | src/edu/westminsteru/cmpt355/jasm/Instructions.java:254-261 | a lookupswitch has as default the label bound to operand 0's text, and one case per table row holding the row's value and its target's label |
| Instructions.TableSwitchFromOperands | src/edu/westminsteru/cmpt355/jasm/Instructions.java:263-272 | a tableswitch has low and high = operands 0 and 1 read by parseInt, default = the label bound to operand 2's text, and one case per table row holding the row's value and its target's label |
| Instructions.EmissionDoesNotThrow | src/edu/westminsteru/cmpt355/jasm/Instructions.java:55-241 | once operands of the declared types are parsed, the casts of a non-branch opcode never throw |
| Instructions.MapValueFits | src/edu/westminsteru/cmpt355/jasm/Instructions.java:25-35 | every opcode in the table declares the operand types its case reads |
| Instructions.JumpDoesNotThrow | src/edu/westminsteru/cmpt355/jasm/Instructions.java:190-196 | a branch's first operand, once parsed, is a branch target |
| Instructions.EnterDoesNotThrowAfterParsing | src/edu/westminsteru/cmpt355/jasm/Instructions.java:37-242 | a known opcode whose operands parse never throws a runtime exception |
| Instructions.OpcodeMapSkipsLdc | src/edu/westminsteru/cmpt355/jasm/Instructions.java:31 | ldc and ldc2 are not in the opcode table |
| Instructions.EnterResolvesOnlyBranches | src/edu/westminsteru/cmpt355/jasm/Instructions.java:190-196 | only a branch that was emitted adds labels |
| Instructions.BranchTargetIsNamed | src/edu/westminsteru/cmpt355/jasm/Instructions.java:190-196 | an emitted branch jumps to the label bound to its operand's text |
| Instructions.JumpOperandIsText | src/edu/westminsteru/cmpt355/jasm/Operands.java:220-222 | a parsed branch target is its operand's text |
| Instructions.ParseAllHead | src/edu/westminsteru/cmpt355/jasm/Instructions.java:378-379 | the first parsed operand is the first operand's parse |
| Instructions.ParseAllAt | src/edu/westminsteru/cmpt355/jasm/Instructions.java:378-379 | the i-th parsed operand is the i-th operand parsed as the i-th type |
| Instructions.OperandReadsView | src/edu/westminsteru/cmpt355/jasm/Instructions.java:295-313 | a parsed int, class name, descriptor or method descriptor is what parseInt, the class-name recogniser or the descriptor recognisers read from its own operand; an identifier or branch target is its operand's text |
| Instructions.BranchOperandIsText | src/edu/westminsteru/cmpt355/jasm/Instructions.java:263-267 | a parsed branch target at any position is that operand's text |
| Instructions.TableCasesDoNotThrow | src/edu/westminsteru/cmpt355/jasm/Instructions.java:384-403 | a table of sound rows never throws a runtime exception |
| Instructions.LdcOfInt | src/edu/westminsteru/cmpt355/jasm/Instructions.java:343-350 | ldc of a decimal 32-bit int loads that int |
| Instructions.DecimalTail | src/edu/westminsteru/cmpt355/jasm/Instructions.java:338-343 | a decimal text is taken neither as a float nor as a string by ldc, nor as a double by ldc2 |
| Instructions.SuffixedDecimalNotDouble | src/edu/westminsteru/cmpt355/jasm/Instructions.java:362-366 | a decimal text with an L suffix has no db suffix, no '.' and no e, so ldc2 does not take it as a double |
| Instructions.Ldc2OfLong | src/edu/westminsteru/cmpt355/jasm/Instructions.java:362-371 | ldc2 of a decimal 64-bit long with L loads that long |
| Instructions.LdcOfString | src/edu/westminsteru/cmpt355/jasm/Instructions.java:341-343 | ldc of a quoted escaped string loads the string |
| Instructions.CodeBuffer.LabelFor | src/edu/westminsteru/cmpt355/jasm/Instructions.java:193-196 | the label map of the code builder is updated as Resolve says and nothing is emitted |
| Instructions.CodeBuffer.BindLabel | src/edu/westminsteru/jasm/JasmAssembler.java:266-270 | a label binding resolves the name and emits the binding |
| Instructions.CodeBuffer.ParseRow | src/edu/westminsteru/cmpt355/jasm/Instructions.java:387-398 | one row of the loop updates the label map and returns the case as TableCase says, emitting nothing |
| Instructions.CodeBuffer.ParseTable | src/edu/westminsteru/cmpt355/jasm/Instructions.java:384-403 | the loop over the rows computes TableCases (one case per row in order, the first bad row ending it; TableCasesFaithful, SameTargetSameLabel) and emits nothing |
| Instructions.CodeBuffer.ParseRows | src/edu/westminsteru/cmpt355/jasm/Instructions.java:384-386 | parsing an absent or present table follows the row specification |
| Instructions.CodeBuffer.Enter | src/edu/westminsteru/cmpt355/jasm/Instructions.java:37-242 | enter updates the labels as its specification says and emits exactly its instruction on success |
| Instructions.CodeBuffer.EnterTableInstruction | src/edu/westminsteru/cmpt355/jasm/Instructions.java:244-274 | enterTableInstruction updates the labels as its specification says and emits exactly its switch on success |
| Parser.Stamp | src/edu/westminsteru/jasm/parser/JasmParser.java:169-176 | every callback of a line carries that line's text and number |
| Parser.SplitWords | src/edu/westminsteru/jasm/parser/JasmParser.java:201-205 | the pieces split from a view lie in the same line as the view |
| Parser.SolidWords | src/edu/westminsteru/jasm/parser/JasmParser.java:201-205 | dropping blank pieces and trimming leaves sound, non-blank words and leaves none exactly when every piece was blank |
| Parser.Content | src/edu/westminsteru/jasm/parser/JasmParser.java:117-121 | the line without its comment and outer whitespace is a sound view of the raw line |
| Parser.HeadAndTail | src/edu/westminsteru/jasm/parser/JasmParser.java:126-127 | the head (the first word) and the tail (the rest, trimmed) are sound views of the line |
| Parser.Misplaced | src/edu/westminsteru/jasm/parser/JasmParser.java:463-473 | a directive out of place fires one exception callback, aborts and does not throw |
| Parser.TrailingText | src/edu/westminsteru/jasm/parser/JasmParser.java:185-189 | trailing text fires one warning callback exactly when it is not blank |
| Parser.SourceResponse | src/edu/westminsteru/jasm/parser/JasmParser.java:178-194 | in the global state .source never aborts and ends with the source callback for the first word |
| Parser.ClassResponse | src/edu/westminsteru/jasm/parser/JasmParser.java:196-219 | .class only continues in the global state and can only throw NoSuchElementException (no class name) |
| Parser.NameResponse | src/edu/westminsteru/jasm/parser/JasmParser.java:221-257 | .super and .implements in the global state never abort or throw |
| Parser.MemberResponse | src/edu/westminsteru/jasm/parser/JasmParser.java:259-319 | .field and .method only continue in the global state and can only throw IndexOutOfBoundsException |
| Parser.MemberFromWords | src/edu/westminsteru/jasm/parser/JasmParser.java:268-288 | a member line throws exactly when it has fewer than two words |
| Parser.DescriptorCheck | src/edu/westminsteru/jasm/parser/JasmParser.java:439-461 | the descriptor check warns at most once, and stays silent exactly when the descriptor is well formed |
| Parser.CodeResponse | src/edu/westminsteru/jasm/parser/JasmParser.java:321-335 | .code continues exactly in the global state and then ends with the code callback |
| Parser.Unsuffixed | src/edu/westminsteru/jasm/parser/JasmParser.java:339-340 | a word without its last character is a sound view of the same line |
| Parser.EndCodeResponse | src/edu/westminsteru/jasm/parser/JasmParser.java:361-379 | .end code continues exactly in the code state, where a bare .end code only fires endCodeDirective |
| Parser.TableResponse | src/edu/westminsteru/jasm/parser/JasmParser.java:381-399 | .table continues exactly in the code state and then ends with the table callback |
| Parser.TableLineEvents | src/edu/westminsteru/jasm/parser/JasmParser.java:401-416 | a table line fires at most one callback, and a table-line callback carries the head without its colon and the tail |
| Parser.EndTableResponse | src/edu/westminsteru/jasm/parser/JasmParser.java:418-436 | .end table continues exactly in the table state, where a bare .end table only fires endTableDirective |
| Parser.ProcessSourceDirective | src/edu/westminsteru/jasm/parser/JasmParser.java:178-194 | the method computes the .source specification |
| Parser.TrailingTextCheck | src/edu/westminsteru/jasm/parser/JasmParser.java:185-189 | the method computes the trailing-text specification |
| Parser.ProcessClassDirective | src/edu/westminsteru/jasm/parser/JasmParser.java:196-219 | the method computes the .class specification |
| Parser.ProcessNameDirective | src/edu/westminsteru/jasm/parser/JasmParser.java:221-257 | the method computes the .super/.implements specification |
| Parser.ProcessMemberDirective | src/edu/westminsteru/jasm/parser/JasmParser.java:259-319 | the method computes the .field/.method specification |
| Parser.ProcessCodeDirective | src/edu/westminsteru/jasm/parser/JasmParser.java:321-335 | the method computes the .code specification |
| Parser.ProcessCodeLine | src/edu/westminsteru/jasm/parser/JasmParser.java:337-359 | the recursive code-line handler computes the code-line specification |
| Parser.RespondToLine | src/edu/westminsteru/jasm/parser/JasmParser.java:108-127 | the method computes LineResponse, the response to one raw line: the comment stripped, the line trimmed, a blank line silent (CommentLineIsBlank, BlankLineSilent, LineQuiet), then Dispatch |
| Parser.Respond | src/edu/westminsteru/jasm/parser/JasmParser.java:129-165 | the method computes Dispatch on state and head, whose transitions DispatchSteps, AbortOnlyWhenMisplaced, TableStateConfined and CrashSources characterise |
| Parser.JasmParser.constructor | src/edu/westminsteru/jasm/parser/JasmParser.java:60-63 | a new parser is in the global state, not aborted, at line 0, with no callbacks fired |
| Parser.JasmParser.AbortParsing | src/edu/westminsteru/jasm/parser/JasmParser.java:79-81 | abortParsing sets the aborted flag and changes nothing else |
| Parser.JasmParser.Process | src/edu/westminsteru/jasm/parser/JasmParser.java:108-166 | process updates the parser state as ProcessSpec says: an aborted parser only records the Aborted state, otherwise the line is counted and its callbacks stamped (ProcessStampsLine, AbortedSkips) |
| Parser.JasmParser.Parse | src/edu/westminsteru/jasm/parser/JasmParser.java:68-74 | parse updates the parser state as ParseSpec says: ProcessAll over the lines, then one endOfInput, last, in the EndOfInput state; a second parse throws (EndOfInputComesLast, EveryLineCounted, ParseSound) |
| ParserProperties.CodeTransition | src/edu/westminsteru/jasm/parser/JasmParser.java:321-335 | .code moves the global state to the code state and fires codeDirective as it does |
| ParserProperties.TableTransition | src/edu/westminsteru/jasm/parser/JasmParser.java:381-399 | .table moves the code state to the table state and fires tableDirective as it does |
| ParserProperties.EndTransition | src/edu/westminsteru/jasm/parser/JasmParser.java:144-160 | .end moves only along the state machine's edges, firing the matching end callback |
| ParserProperties.DispatchSteps | src/edu/westminsteru/jasm/parser/JasmParser.java:129-165 | every line moves along an edge of the state machine, fires the edge's callback, and stays put when it aborts |
| ParserProperties.TableStateConfined | src/edu/westminsteru/jasm/parser/JasmParser.java:129-133 | in the table state a line never aborts or throws, fires at most one callback, and leaves the state exactly on .end table |
| ParserProperties.AbortOnlyWhenMisplaced | src/edu/westminsteru/jasm/parser/JasmParser.java:129-165 | a line aborts exactly when a global-only directive, .table or .end code appears in the wrong state, and then fires one exception callback |
| ParserProperties.CrashSources | src/edu/westminsteru/jasm/parser/JasmParser.java:196-319 | the only runtime exceptions are .class without a name and .field/.method with too few words, both in the global state |
| ParserProperties.MemberRules | src/edu/westminsteru/jasm/parser/JasmParser.java:268-288 | a member is announced exactly when its descriptor matches and its flags are valid; a bad descriptor is reported at its start |
| ParserProperties.DescriptorCheckAgrees | src/edu/westminsteru/jasm/parser/JasmParser.java:439-461 | the descriptor check is silent exactly on a matching descriptor and otherwise reports at the descriptor's column |
| ParserProperties.LabelThenWholeRestIsOpcode | src/edu/westminsteru/jasm/parser/JasmParser.java:339-342 | after a label the rest of the line is handled with an empty tail, so it becomes an opcode without operands |
| ParserProperties.CodeLineQuiet | src/edu/westminsteru/jasm/parser/JasmParser.java:337-359 | a code line never fires the end-of-input callback |
| ParserProperties.DispatchQuiet | src/edu/westminsteru/jasm/parser/JasmParser.java:129-165 | no line fires the end-of-input callback |
| ParserProperties.LineQuiet | src/edu/westminsteru/jasm/parser/JasmParser.java:108-127 | no raw line fires the end-of-input callback |
| ParserProperties.ProcessAllQuiet | src/edu/westminsteru/jasm/parser/JasmParser.java:71 | processing lines never fires the end-of-input callback |
| ParserProperties.EndOfInputComesLast | src/edu/westminsteru/jasm/parser/JasmParser.java:68-74 | a parse from the global state ends with exactly one endOfInput callback, in the end-of-input state, and a second parse throws IllegalStateException |
| ParserProperties.AbortedSkips | src/edu/westminsteru/jasm/parser/JasmParser.java:109-112 | after an abort every further line only sets the aborted state |
| ParserProperties.BlankLineSilent | src/edu/westminsteru/jasm/parser/JasmParser.java:114-124 | a blank line only advances the line counter and the current line |
| ParserProperties.CommentLineIsBlank | src/edu/westminsteru/jasm/parser/JasmParser.java:117-121 | a line starting with # is blank once its comment is stripped |
| ParserProperties.ProcessStampsLine | src/edu/westminsteru/jasm/parser/JasmParser.java:114-115 | processing a line counts it, records it, keeps earlier callbacks and stamps new ones with it |
| ParserProperties.EveryLineCounted | src/edu/westminsteru/jasm/parser/JasmParser.java:71 | a run without an abort counts every line and leaves the last line current |
| LegacyParser.EndCodeResponse | src/edu/westminsteru/cmpt355/jasm/parser/JasmParser.java:310-323 | the older .end code continues exactly in the code state, firing endCodeDirective; elsewhere it reports ".end code unexpected here" at the head and aborts |
| LegacyParser.RespondToLine | src/edu/westminsteru/cmpt355/jasm/parser/JasmParser.java:68-85 | the method computes the older LineResponse: the comment stripped, the line trimmed, then the older Dispatch |
| LegacyParser.Respond | src/edu/westminsteru/cmpt355/jasm/parser/JasmParser.java:86-116 | the method computes the older Dispatch on head and state, which DispatchSteps, AbortOnlyWhenMisplaced, EndCodeBySuffix and AgreesWithNewer characterise |
| LegacyParser.LegacyJasmParser.constructor | src/edu/westminsteru/cmpt355/jasm/parser/JasmParser.java:47-49 | a new older parser is in the global state, not aborted, at line 0, with no callbacks fired |
| LegacyParser.LegacyJasmParser.AbortParsing | src/edu/westminsteru/cmpt355/jasm/parser/JasmParser.java:56-58 | abortParsing sets the aborted flag and changes nothing else |
| LegacyParser.LegacyJasmParser.Process | src/edu/westminsteru/cmpt355/jasm/parser/JasmParser.java:68-116 | process updates the older parser's state as the older ProcessSpec says: an aborted parser skips the line, otherwise it is counted and dispatched (AbortedSkips) |
| LegacyParser.LegacyJasmParser.Parse | src/edu/westminsteru/cmpt355/jasm/parser/JasmParser.java:51-54 | parse updates the older parser's state as the older ParseSpec says: every line, then endOfFile, with no guard against a second call (EndOfFileLast, AbortedParse, SecondParseRuns) |
| LegacyParserProperties.DispatchSteps | src/edu/westminsteru/cmpt355/jasm/parser/JasmParser.java:86-116 | the older state changes exactly on .code in the global state and on .end ...code in the code state, firing the matching callback, and never when aborting |
| LegacyParserProperties.BareMisplacedMessage | src/edu/westminsteru/cmpt355/jasm/parser/JasmParser.java:349-359 | the older misplaced-directive message is the head followed by " unexpected here", at the head's column |
| LegacyParserProperties.AbortOnlyWhenMisplaced | src/edu/westminsteru/cmpt355/jasm/parser/JasmParser.java:86-116 | the older parser aborts exactly on a global-only directive inside code or .end code outside it, with exactly one exception callback and no state change |
| LegacyParserProperties.EndCodeBySuffix | src/edu/westminsteru/cmpt355/jasm/parser/JasmParser.java:95-96 | any tail ending in "code" closes a code block |
| LegacyParserProperties.NoTables | src/edu/westminsteru/cmpt355/jasm/parser/JasmParser.java:86-116 | the older parser knows no tables: .table gives "Invalid directive" in code and "Unexpected token: .table" outside, and .end table gives "Unexpected token: table" at the tail |
| LegacyParserProperties.WordingUnusedInGlobal | src/edu/westminsteru/cmpt355/jasm/parser/JasmParser.java:349-359 | in the global state the misplaced-directive wording never appears, so both messages give the same responses there |
| LegacyParserProperties.AgreesWithNewer | src/edu/westminsteru/cmpt355/jasm/parser/JasmParser.java:86-116 | away from .table and .end, and with global-only directives only at top level, both parsers respond alike and move alike |
| LegacyParserProperties.AgreesInGlobal | src/edu/westminsteru/cmpt355/jasm/parser/JasmParser.java:86-116 | in the global state both parsers respond alike to every head but .table and .end |
| LegacyParserProperties.AgreesOnDeclaration | src/edu/westminsteru/cmpt355/jasm/parser/JasmParser.java:127-206 | .source, .class, .interface, .enum and .super are handled alike by both parsers |
| LegacyParserProperties.AgreesOnField | src/edu/westminsteru/cmpt355/jasm/parser/JasmParser.java:208-237 | .field is handled alike by both parsers |
| LegacyParserProperties.AgreesOnMethod | src/edu/westminsteru/cmpt355/jasm/parser/JasmParser.java:239-268 | .method is handled alike by both parsers |
| LegacyParserProperties.AgreesOnImplements | src/edu/westminsteru/cmpt355/jasm/parser/JasmParser.java:189-206 | .implements is handled alike by both parsers |
| LegacyParserProperties.AgreesOnCode | src/edu/westminsteru/cmpt355/jasm/parser/JasmParser.java:270-284 | .code is handled alike by both parsers |
| LegacyParserProperties.AgreesInCode | src/edu/westminsteru/cmpt355/jasm/parser/JasmParser.java:286-308 | code lines are handled alike by both parsers |
| LegacyParserProperties.AbortedSkips | src/edu/westminsteru/cmpt355/jasm/parser/JasmParser.java:69-70 | after an abort the older parser ignores every further line and changes nothing |
| LegacyParserProperties.AbortedParse | src/edu/westminsteru/cmpt355/jasm/parser/JasmParser.java:51-54 | the older parse after an abort still calls endOfFile |
| LegacyParserProperties.ProcessAllExtends | src/edu/westminsteru/cmpt355/jasm/parser/JasmParser.java:52 | processing lines only appends callbacks |
| LegacyParserProperties.EndOfFileLast | src/edu/westminsteru/cmpt355/jasm/parser/JasmParser.java:51-54 | a parse that does not throw keeps earlier callbacks and ends with endOfFile |
| LegacyParserProperties.SecondParseRuns | src/edu/westminsteru/cmpt355/jasm/parser/JasmParser.java:51-54 | the older parse has no guard: a second parse runs and fires endOfFile again |
| Listener.Commit | src/edu/westminsteru/jasm/DefaultJasmParserListener.java:162-179 | committing appends the pending class, keeps the globals and resets every per-class field |
| Listener.Report | src/edu/westminsteru/jasm/DefaultJasmParserListener.java:54-57 | adding an error appends exactly the built message, and fails when the message cannot be built |
| Listener.OnException | src/edu/westminsteru/jasm/DefaultJasmParserListener.java:44-49 | an exception callback records its message, the line, its number and the column plus one |
| Listener.DefaultJasmParserListener.constructor | src/edu/westminsteru/jasm/DefaultJasmParserListener.java:24-41 | a new listener holds no source, no errors, no classes and empty per-class lists |
| Listener.DefaultJasmParserListener.AddError | src/edu/westminsteru/jasm/DefaultJasmParserListener.java:54-57 | errors.add(new ErrorMessage(...)) appends the message or throws as the constructor does |
| Listener.DefaultJasmParserListener.ExceptionOccurred | src/edu/westminsteru/jasm/DefaultJasmParserListener.java:44-49 | exceptionOccurred updates the listener as OnException says: the message recorded with column + 1 (ExceptionColumnShifted) |
| Listener.DefaultJasmParserListener.SourceDirective | src/edu/westminsteru/jasm/DefaultJasmParserListener.java:52-60 | sourceDirective updates the listener as OnSource says: the first .source is kept and a later one reports "Duplicate .source directive" (SourceKeptFirst, SourceNameSticks) |
| Listener.DefaultJasmParserListener.CommitClassSpec | src/edu/westminsteru/jasm/DefaultJasmParserListener.java:162-179 | commitClassSpec updates the listener as Commit says |
| Listener.DefaultJasmParserListener.ResetClass | src/edu/westminsteru/jasm/DefaultJasmParserListener.java:173-178 | the per-class fields are reset, classFlags to an empty list, and the globals and code state are kept |
| Listener.DefaultJasmParserListener.ClassDirective | src/edu/westminsteru/jasm/DefaultJasmParserListener.java:63-70 | classDirective updates the listener as OnClass says: a named predecessor is committed and its per-class state cleared, then the id, flags and name are set (ClassCommitsNamedPredecessor, SuperResetByNextClass) |
| Listener.DefaultJasmParserListener.SuperDirective | src/edu/westminsteru/jasm/DefaultJasmParserListener.java:73-81 | superDirective updates the listener as OnSuper says: the first .super of a class is kept, a later one reports Duplicate (SuperKeptFirst, SuperResetByNextClass) |
| Listener.DefaultJasmParserListener.ImplementsDirective | src/edu/westminsteru/jasm/DefaultJasmParserListener.java:84-86 | implementsDirective appends the name and changes nothing else |
| Listener.DefaultJasmParserListener.FieldDirective | src/edu/westminsteru/jasm/DefaultJasmParserListener.java:89-91 | fieldDirective appends the field and changes nothing else |
| Listener.DefaultJasmParserListener.MethodDirective | src/edu/westminsteru/jasm/DefaultJasmParserListener.java:94-96 | methodDirective appends the method and changes nothing else |
| Listener.DefaultJasmParserListener.CodeDirective | src/edu/westminsteru/jasm/DefaultJasmParserListener.java:99-107 | codeDirective updates the listener as OnCode says: a new code buffer, or Duplicate when one is open (CodeKeptFirst) |
| Listener.DefaultJasmParserListener.CodeLabel | src/edu/westminsteru/jasm/DefaultJasmParserListener.java:110-118 | codeLabel updates the listener as OnLabel says: a label pending since the last instruction is reported, a new one queued (LabelDuplicates, LabelsQueue, LabelFreshAfterInstruction) |
| Listener.DefaultJasmParserListener.CodeInstruction | src/edu/westminsteru/jasm/DefaultJasmParserListener.java:121-126 | codeInstruction updates the listener as OnInstruction says: NullPointerException without a buffer, otherwise the instruction takes the pending labels, which are cleared (InstructionTakesLabels) |
| Listener.DefaultJasmParserListener.EndCodeDirective | src/edu/westminsteru/jasm/DefaultJasmParserListener.java:129-139 | endCodeDirective updates the listener as OnEndCode says, in the three cases EndCodeCases states |
| Listener.DefaultJasmParserListener.TableLine | src/edu/westminsteru/jasm/DefaultJasmParserListener.java:147-149 | tableLine updates the listener as OnTableLine says: the row is appended in order (RowsAppend) |
| Listener.DefaultJasmParserListener.EndTableDirective | src/edu/westminsteru/jasm/DefaultJasmParserListener.java:152-155 | endTableDirective updates the listener as OnEndTable says: one Table item appended and the rows cleared (EndTableCases) |
| Listener.DefaultJasmParserListener.TableDirective | src/edu/westminsteru/jasm/DefaultJasmParserListener.java:142-144 | tableDirective starts an empty table and changes nothing else |
| Listener.DefaultJasmParserListener.EndOfInput | src/edu/westminsteru/jasm/DefaultJasmParserListener.java:158-160 | endOfInput commits the pending class |
| Listener.DefaultJasmParserListener.Receive | src/edu/westminsteru/jasm/DefaultJasmParserListener.java:43-160 | a callback updates the listener as OnNotice says, dispatching to the On… function of that callback (NoticeKeepsErrors, NoticeKeepsClasses) |
| Listener.DefaultJasmParserListener.ReceiveAll | src/edu/westminsteru/jasm/DefaultJasmParserListener.java:43-160 | a series of callbacks updates the listener as Replay says, stopping at the first exception; errors and classes only grow along it (ReplayFirst, ReplayExtends, EndOfInputCommits) |
| ListenerProperties.LetterFirstNotBlank | src/edu/westminsteru/jasm/DefaultJasmParserListener.java:54-57 | the listener's own messages are not blank |
| ListenerProperties.UnplacedRecorded | src/edu/westminsteru/jasm/DefaultJasmParserListener.java:54-57 | the listener's own messages are recorded with the current line, its number and no column |
| ListenerProperties.ExceptionColumnShifted | src/edu/westminsteru/jasm/DefaultJasmParserListener.java:44-49 | a parser exception is recorded one column to the right of where it was reported |
| ListenerProperties.SourceKeptFirst | src/edu/westminsteru/jasm/DefaultJasmParserListener.java:52-60 | the first .source wins; a later one only adds "Duplicate .source directive" |
| ListenerProperties.SuperKeptFirst | src/edu/westminsteru/jasm/DefaultJasmParserListener.java:73-81 | the first .super of a class wins; a later one only adds "Duplicate .super directive" |
| ListenerProperties.CodeKeptFirst | src/edu/westminsteru/jasm/DefaultJasmParserListener.java:99-107 | a .code inside an open code block only adds "Duplicate .code directive" |
| ListenerProperties.ClassCommitsNamedPredecessor | src/edu/westminsteru/jasm/DefaultJasmParserListener.java:63-70 | a class directive commits the previous class exactly when it had a name, resetting its members, and keeps the globals |
| ListenerProperties.SuperResetByNextClass | src/edu/westminsteru/jasm/DefaultJasmParserListener.java:63-81 | after a committed class the next class may declare its own superclass |
| ListenerProperties.LabelDuplicates | src/edu/westminsteru/jasm/DefaultJasmParserListener.java:110-118 | a label already pending adds "Duplicate label definition"; a new one is queued |
| ListenerProperties.InstructionTakesLabels | src/edu/westminsteru/jasm/DefaultJasmParserListener.java:121-126 | an instruction outside code throws NullPointerException; inside code it takes the pending labels, which are then cleared |
| ListenerProperties.LabelFreshAfterInstruction | src/edu/westminsteru/jasm/DefaultJasmParserListener.java:121-126 | a label after an instruction starts a new queue, even if an earlier instruction used it |
| ListenerProperties.LabelsQueue | src/edu/westminsteru/jasm/DefaultJasmParserListener.java:110-118 | distinct labels are queued in order |
| ListenerProperties.EndCodeCases | src/edu/westminsteru/jasm/DefaultJasmParserListener.java:129-139 | .end code without code adds an error; without a method it changes nothing and keeps the code open; otherwise the code goes to the last method |
| ListenerProperties.RowsAppend | src/edu/westminsteru/jasm/DefaultJasmParserListener.java:147-149 | table rows are appended in order |
| ListenerProperties.EndTableCases | src/edu/westminsteru/jasm/DefaultJasmParserListener.java:152-155 | .end table outside code throws NullPointerException; inside code it appends the table and clears it |
| ListenerProperties.ReplaySnoc | src/edu/westminsteru/jasm/DefaultJasmParserListener.java:43-160 | replaying one more callback acts on the result of the earlier ones |
| ListenerProperties.NoticeKeepsErrors | src/edu/westminsteru/jasm/DefaultJasmParserListener.java:43-160 | no callback removes an error |
| ListenerProperties.NoticeKeepsClasses | src/edu/westminsteru/jasm/DefaultJasmParserListener.java:43-160 | no callback removes a committed class, and each commits at most one |
| ListenerProperties.ReplayExtends | src/edu/westminsteru/jasm/DefaultJasmParserListener.java:43-160 | errors and committed classes only grow along a replay |
| ListenerProperties.SourceNameSticks | src/edu/westminsteru/jasm/DefaultJasmParserListener.java:52-60 | once set, the source name never changes |
| ListenerProperties.EndOfInputCommits | src/edu/westminsteru/jasm/DefaultJasmParserListener.java:158-160 | endOfInput commits whatever is pending |
| ListenerProperties.NamelessClassCommitted | src/edu/westminsteru/jasm/DefaultJasmParserListener.java:158-179 | an input with no class still commits one nameless class |
| LegacyListener.Commit | src/edu/westminsteru/cmpt355/jasm/DefaultJasmParserListener.java:145-162 | the older commit appends the pending class, keeps the globals and resets the per-class fields |
| LegacyListener.Report | src/edu/westminsteru/cmpt355/jasm/DefaultJasmParserListener.java:52-56 | the older listener appends exactly the built message, and fails when it cannot be built |
| LegacyListener.OnException | src/edu/westminsteru/cmpt355/jasm/DefaultJasmParserListener.java:42-48 | the older exception callback records the message, line, number and column plus one |
| LegacyListener.DefaultJasmParserListener.constructor | src/edu/westminsteru/cmpt355/jasm/DefaultJasmParserListener.java:24-40 | a new older listener holds no source, no errors, no classes and empty per-class lists |
| LegacyListener.DefaultJasmParserListener.AddError | src/edu/westminsteru/cmpt355/jasm/DefaultJasmParserListener.java:52-56 | errors.add(new ErrorMessage(...)) appends the message or throws as the constructor does |
| LegacyListener.DefaultJasmParserListener.ExceptionOccurred | src/edu/westminsteru/cmpt355/jasm/DefaultJasmParserListener.java:42-48 | exceptionOccurred updates the older listener as its OnException says: the message recorded with column + 1 (ExceptionColumnShifted) |
| LegacyListener.DefaultJasmParserListener.SourceDirective | src/edu/westminsteru/cmpt355/jasm/DefaultJasmParserListener.java:50-59 | sourceDirective updates the older listener as its OnSource says: the first .source is kept, a later one reports Duplicate (DuplicatesKeepFirst) |
| LegacyListener.DefaultJasmParserListener.CommitClassSpec | src/edu/westminsteru/cmpt355/jasm/DefaultJasmParserListener.java:145-162 | commitClassSpec updates the older listener as Commit says |
| LegacyListener.DefaultJasmParserListener.ResetClass | src/edu/westminsteru/cmpt355/jasm/DefaultJasmParserListener.java:156-161 | the per-class fields are reset, classFlags to an empty list, and the globals and code state are kept |
| LegacyListener.DefaultJasmParserListener.ClassDirective | src/edu/westminsteru/cmpt355/jasm/DefaultJasmParserListener.java:61-69 | classDirective updates the older listener as its OnClass says: a named predecessor is committed, then the id, flags and name are set (ClassCommitsNamedPredecessor) |
| LegacyListener.DefaultJasmParserListener.SuperDirective | src/edu/westminsteru/cmpt355/jasm/DefaultJasmParserListener.java:71-80 | superDirective updates the older listener as its OnSuper says: the first .super is kept, a later one reports Duplicate (DuplicatesKeepFirst) |
| LegacyListener.DefaultJasmParserListener.ImplementsDirective | src/edu/westminsteru/cmpt355/jasm/DefaultJasmParserListener.java:82-85 | implementsDirective appends the name and changes nothing else |
| LegacyListener.DefaultJasmParserListener.FieldDirective | src/edu/westminsteru/cmpt355/jasm/DefaultJasmParserListener.java:87-90 | fieldDirective appends the field and changes nothing else |
| LegacyListener.DefaultJasmParserListener.MethodDirective | src/edu/westminsteru/cmpt355/jasm/DefaultJasmParserListener.java:92-95 | methodDirective appends the method and changes nothing else |
| LegacyListener.DefaultJasmParserListener.CodeDirective | src/edu/westminsteru/cmpt355/jasm/DefaultJasmParserListener.java:97-106 | codeDirective updates the older listener as its OnCode says: a new code buffer, or Duplicate when one is open (DuplicatesKeepFirst) |
| LegacyListener.DefaultJasmParserListener.CodeLabel | src/edu/westminsteru/cmpt355/jasm/DefaultJasmParserListener.java:108-117 | codeLabel updates the older listener as its OnLabel says: a pending label with the same text is reported, a new one queued (LabelsComparedByText) |
| LegacyListener.DefaultJasmParserListener.CodeInstruction | src/edu/westminsteru/cmpt355/jasm/DefaultJasmParserListener.java:119-125 | codeInstruction updates the older listener as its OnInstruction says: NullPointerException without a buffer, otherwise the pending labels are taken and cleared (InstructionTakesLabels) |
| LegacyListener.DefaultJasmParserListener.EndCodeDirective | src/edu/westminsteru/cmpt355/jasm/DefaultJasmParserListener.java:127-138 | endCodeDirective updates the older listener as its OnEndCode says, in the cases EndCodeCases and CodeWithoutMethodThrows state |
| LegacyListener.DefaultJasmParserListener.EndOfFile | src/edu/westminsteru/cmpt355/jasm/DefaultJasmParserListener.java:140-143 | endOfFile commits the pending class |
| LegacyListener.DefaultJasmParserListener.Receive | src/edu/westminsteru/cmpt355/jasm/DefaultJasmParserListener.java:42-143 | a callback updates the older listener as its OnNotice says; table callbacks change nothing (TablesIgnored) |
| LegacyListener.DefaultJasmParserListener.ReceiveAll | src/edu/westminsteru/cmpt355/jasm/DefaultJasmParserListener.java:42-143 | a series of callbacks updates the older listener as its Replay says, stopping at the first exception (ReplaySnoc, EndOfFileCommits) |
| LegacyListenerProperties.UnplacedRecorded | src/edu/westminsteru/cmpt355/jasm/DefaultJasmParserListener.java:52-56 | the older listener's own messages carry the current line, its number and no column |
| LegacyListenerProperties.ExceptionColumnShifted | src/edu/westminsteru/cmpt355/jasm/DefaultJasmParserListener.java:42-48 | a parser exception is recorded one column to the right |
| LegacyListenerProperties.DuplicatesKeepFirst | src/edu/westminsteru/cmpt355/jasm/DefaultJasmParserListener.java:50-106 | the first .source, .super and .code win; later ones only add their "Duplicate" messages |
| LegacyListenerProperties.ClassCommitsNamedPredecessor | src/edu/westminsteru/cmpt355/jasm/DefaultJasmParserListener.java:61-69 | a class directive commits the previous class exactly when it had a name, and keeps the globals |
| LegacyListenerProperties.LabelsComparedByText | src/edu/westminsteru/cmpt355/jasm/DefaultJasmParserListener.java:108-117 | the older listener compares labels by their text |
| LegacyListenerProperties.SameTextLabelsDiffer | src/edu/westminsteru/cmpt355/jasm/DefaultJasmParserListener.java:108-117 | a repeated label text is reported by the older listener and queued twice by the newer one, which compares views |
| LegacyListenerProperties.InstructionTakesLabels | src/edu/westminsteru/cmpt355/jasm/DefaultJasmParserListener.java:119-125 | an instruction outside code throws NullPointerException; inside code it takes the pending labels, which are then cleared |
| LegacyListenerProperties.EndCodeCases | src/edu/westminsteru/cmpt355/jasm/DefaultJasmParserListener.java:127-138 | .end code without code adds an error; without a method it throws NoSuchElementException; otherwise the code goes to the last method |
| LegacyListenerProperties.CodeWithoutMethodThrows | src/edu/westminsteru/cmpt355/jasm/DefaultJasmParserListener.java:134-135 | a code block before any method throws NoSuchElementException at .end code |
| LegacyListenerProperties.TablesIgnored | src/edu/westminsteru/cmpt355/jasm/DefaultJasmParserListener.java:42-143 | the older listener has no table callbacks, so table notices change nothing |
| LegacyListenerProperties.ReplaySnoc | src/edu/westminsteru/cmpt355/jasm/DefaultJasmParserListener.java:42-143 | replaying one more callback acts on the result of the earlier ones |
| LegacyListenerProperties.EndOfFileCommits | src/edu/westminsteru/cmpt355/jasm/DefaultJasmParserListener.java:140-143 | endOfFile commits whatever is pending |
| Assembler.NotBlankAfterPrefix | src/edu/westminsteru/jasm/JasmAssembler.java:213-218 | a message behind one of the letter-first prefixes is never blank |
| Assembler.Caught | src/edu/westminsteru/jasm/JasmAssembler.java:213-218 | catchError turns an exception into the message prefix plus the exception's text, with no line or column, and that message is never blank |
| Assembler.Insert | src/edu/westminsteru/jasm/JasmAssembler.java:84-86 | inserting a message into the sorted list adds exactly one |
| Assembler.SortByPosition | src/edu/westminsteru/jasm/JasmAssembler.java:84-86 | sorting keeps the number of messages |
| Assembler.Add | src/edu/westminsteru/jasm/JasmAssembler.java:238-241 | adding a buildable message appends it; an unbuildable one stops with its exception and leaves the errors as they were; either way the loop goes on at the given item |
| Assembler.Entered | src/edu/westminsteru/jasm/JasmAssembler.java:270-280 | an emitted instruction is appended, a runtime exception stops the code, and an AssemblyException becomes a message at the item's line |
| Assembler.BindAll | src/edu/westminsteru/jasm/JasmAssembler.java:267-269 | binding the pending labels emits one binding per label and only extends the label table, keeping it valid |
| Assembler.Step | src/edu/westminsteru/jasm/JasmAssembler.java:230-289 | every item moves the loop forward and never past the end of the code |
| Assembler.Or32 | src/edu/westminsteru/jasm/JasmAssembler.java:154-155 | or-ing a kind bit into the class flags stays a 32-bit int |
| Assembler.KindFlags | src/edu/westminsteru/jasm/JasmAssembler.java:152-156 | the class kind leaves the flags a 32-bit int |
| Assembler.ClassStep | src/edu/westminsteru/jasm/JasmAssembler.java:95-116 | one class adds at most one bytecode, keeps the earlier ones, and success holds exactly when it added one; an added bytecode carries the class name; a thrown exception means failure |
| Assembler.ClassesFrom | src/edu/westminsteru/jasm/JasmAssembler.java:95-116 | the class loop keeps earlier bytecodes, adds at most one per class, succeeds exactly when it adds one for every class, and then every class was named and the bytecodes carry the class names in order |
| Assembler.ClassAt | src/edu/westminsteru/jasm/JasmAssembler.java:95-116 | the same for a named class at the head of the remaining list |
| Assembler.ParsePhase | src/edu/westminsteru/jasm/JasmAssembler.java:79-83 | the listener after the parse holds only sound views |
| Assembler.AfterParse | src/edu/westminsteru/jasm/JasmAssembler.java:83-123 | the phase after the parse keeps the already-assembled flag |
| Assembler.AssembleSpec | src/edu/westminsteru/jasm/JasmAssembler.java:74-123 | assemble always leaves the already-assembled flag set |
| Assembler.BindAllSnoc | src/edu/westminsteru/jasm/JasmAssembler.java:267-269 | binding one more label resolves it after the earlier ones and appends its binding |
| Assembler.BindLabels | src/edu/westminsteru/jasm/JasmAssembler.java:267-269 | the loop that binds the pending labels computes BindAll on the code builder |
| Assembler.JasmAssembler.constructor | src/edu/westminsteru/jasm/JasmAssembler.java:38-45 | a new assembler keeps its input and has no errors, no bytecodes and has not assembled |
| Assembler.JasmAssembler.AddError | src/edu/westminsteru/jasm/JasmAssembler.java:238-241 | errorMessages.add appends the built message or throws, and touches nothing else |
| Assembler.JasmAssembler.Handle | src/edu/westminsteru/jasm/JasmAssembler.java:270-280 | handling an instruction's outcome appends at most Diagnosed (the exception's message, the instruction's text and line, the target's column + 1 or UNSPECIFIC), and throws only on a runtime exception or an unbuildable message |
| Assembler.JasmAssembler.StepItem | src/edu/westminsteru/jasm/JasmAssembler.java:230-289 | one turn of the item loop updates the labels, the emitted code and the errors as Step says |
| Assembler.JasmAssembler.BuildMethodCode | src/edu/westminsteru/jasm/JasmAssembler.java:226-292 | buildMethodCode records the errors of CodeFrom, the loop of Step over the items, and unless an exception escapes emits its code; CodeFromGrows, TableAloneReported, SwitchWithoutTable (ExpectedTable), SwitchTakesTable and InstructionBindsFirst (Diagnosed) characterise it |
| Assembler.JasmAssembler.BuildField | src/edu/westminsteru/jasm/JasmAssembler.java:186-195 | one field adds its image or its "Invalid .field: " message as FieldStep says (FieldStepGrows) |
| Assembler.JasmAssembler.BuildFields | src/edu/westminsteru/jasm/JasmAssembler.java:186-195 | the field loop computes FieldsFrom: one image or one error per field (FieldsFromGrows) |
| Assembler.JasmAssembler.BuildMethod | src/edu/westminsteru/jasm/JasmAssembler.java:197-207 | one method adds its image or its "Invalid .method: " message as MethodStep says (MethodStepGrows) |
| Assembler.JasmAssembler.BuildMethods | src/edu/westminsteru/jasm/JasmAssembler.java:197-207 | the method loop computes MethodsFrom: at most one image per method (MethodsFromGrows) |
| Assembler.JasmAssembler.BuildClass | src/edu/westminsteru/jasm/JasmAssembler.java:150-211 | buildClass computes BuildClassSpec: fields and methods first, then abandoned if any error exists, otherwise the image AssembledImage describes (BuildClassGrows) |
| Assembler.JasmAssembler.AssembleClass | src/edu/westminsteru/jasm/JasmAssembler.java:96-115 | one turn of the class loop for a named class computes ClassStep: at most one bytecode is added, and success is kept only when it is (ClassStepConsistent) |
| Assembler.JasmAssembler.BuildClasses | src/edu/westminsteru/jasm/JasmAssembler.java:95-116 | the class loop computes ClassesFrom, whose bytecodes sit at their classes' positions with their names (ClassesFromConsistent, ClassesFromName); a class with a null or blank name adds "Missing .class/.interface/.enum directive" without position and ends the loop (NamelessStops, NamelessReported, NamelessFails) |
| Assembler.JasmAssembler.Assemble | src/edu/westminsteru/jasm/JasmAssembler.java:74-123 | assemble updates the assembler as AssembleSpec says: once only, the parse errors sorted, Success iff there are no errors (AssembleSucceedsIffClean, ParseErrorsFail, OnlyOnce) |
| Assembler.JasmAssembler.Conclude | src/edu/westminsteru/jasm/JasmAssembler.java:83-123 | the rest of assemble updates the assembler as AfterParse says: it fails at once on any sorted error, otherwise it builds every class and keeps the bytecodes only on success (AfterParseSucceedsIffClean, AfterParseKeepsEveryClass) |
| Assembler.JasmAssembler.GetAssembledBytecodes | src/edu/westminsteru/jasm/JasmAssembler.java:130-137 | getAssembledBytecodes returns the bytecodes or throws as BytecodesOf says (IllegalArgument before assemble, IllegalState after a failure; GettersBeforeAssemble), changing nothing |
| Assembler.JasmAssembler.GetErrorMessages | src/edu/westminsteru/jasm/JasmAssembler.java:144-148 | getErrorMessages returns the errors or throws as ErrorsOf says (IllegalArgument before assemble; GettersBeforeAssemble), changing nothing |
| AssemblerProperties.AtPosition | src/edu/westminsteru/jasm/JasmAssembler.java:84-86 | the messages at one position never outnumber the list |
| AssemblerProperties.InsertPermutes | src/edu/westminsteru/jasm/JasmAssembler.java:84-86 | inserting adds exactly the inserted message |
| AssemblerProperties.SortPermutes | src/edu/westminsteru/jasm/JasmAssembler.java:84-86 | the sort is a permutation of the messages |
| AssemblerProperties.InsertSorted | src/edu/westminsteru/jasm/JasmAssembler.java:84-86 | inserting into a sorted list keeps it sorted by line and then column |
| AssemblerProperties.SortSorts | src/edu/westminsteru/jasm/JasmAssembler.java:84-86 | the messages come out sorted by line and then column |
| AssemblerProperties.AtPositionAppend | src/edu/westminsteru/jasm/JasmAssembler.java:84-86 | selecting a position distributes over joining lists |
| AssemblerProperties.InsertStable | src/edu/westminsteru/jasm/JasmAssembler.java:84-86 | an inserted message goes after the messages at its own position |
| AssemblerProperties.SortStable | src/edu/westminsteru/jasm/JasmAssembler.java:84-86 | List.sort is stable: messages at the same position keep their order |
| AssemblerProperties.StepGrows | src/edu/westminsteru/jasm/JasmAssembler.java:230-289 | one item never removes an error |
| AssemblerProperties.CodeFromGrows | src/edu/westminsteru/jasm/JasmAssembler.java:226-292 | building code never removes an error |
| AssemblerProperties.FieldStepGrows | src/edu/westminsteru/jasm/JasmAssembler.java:186-195 | each field adds either its image or one error, and removes nothing |
| AssemblerProperties.FieldsFromGrows | src/edu/westminsteru/jasm/JasmAssembler.java:186-195 | each field adds one image or one error, and nothing is removed |
| AssemblerProperties.MethodStepGrows | src/edu/westminsteru/jasm/JasmAssembler.java:197-207 | each method adds at most one image and removes nothing; without a new error it adds its image |
| AssemblerProperties.MethodsFromGrows | src/edu/westminsteru/jasm/JasmAssembler.java:197-207 | the methods add at most one image each, and one each when no error was added |
| AssemblerProperties.BuildClassGrows | src/edu/westminsteru/jasm/JasmAssembler.java:150-211 | buildClass never removes an error, and a class is built only when no error exists before or during it |
| AssemblerProperties.AssembledImage | src/edu/westminsteru/jasm/JasmAssembler.java:150-207 | a built class had no errors and has the class name, the flags of its words plus the kind bit, the source file, the superclass or java/lang/Object, the interfaces, and one image per field and per method |
| AssemblerProperties.ClassStepConsistent | src/edu/westminsteru/jasm/JasmAssembler.java:95-116 | a loop that has not failed has produced no error, and one class keeps this |
| AssemblerProperties.ThrownReported | src/edu/westminsteru/jasm/JasmAssembler.java:112-115 | an exception from a class is recorded by its message without position, fails the assembly and adds no bytecode; a blank message makes the recording throw |
| AssemblerProperties.ClassesFromConsistent | src/edu/westminsteru/jasm/JasmAssembler.java:95-116 | the whole class loop keeps a successful loop free of errors |
| AssemblerProperties.AllNamedAt | src/edu/westminsteru/jasm/JasmAssembler.java:96-100 | when every remaining class is named, each one is |
| AssemblerProperties.SpecNamesAt | src/edu/westminsteru/jasm/JasmAssembler.java:109 | the k-th remaining class name is that class's name |
| AssemblerProperties.ClassesFromName | src/edu/westminsteru/jasm/JasmAssembler.java:95-116 | after a successful loop the bytecode for each class sits at its position and carries its name |
| AssemblerProperties.NamelessStops | src/edu/westminsteru/jasm/JasmAssembler.java:96-100 | from the first class with a null or blank name on, no class yields a bytecode (the loop breaks there), and the assembly fails |
| AssemblerProperties.NamelessReported | src/edu/westminsteru/jasm/JasmAssembler.java:96-100 | unless a class before it threw out of assemble, the first nameless class leaves "Missing .class/.interface/.enum directive", with no line or column, as the last message |
| AssemblerProperties.NamedUntilEach | src/edu/westminsteru/jasm/JasmAssembler.java:96-97 | "every class from i before j is named" in its recursive form holds exactly when each of those classes has a non-null, non-blank name |
| AssemblerProperties.NamelessFails | src/edu/westminsteru/jasm/JasmAssembler.java:96-100 | a class without a name anywhere in the list fails the assembly |
| AssemblerProperties.AfterParseSucceedsIffClean | src/edu/westminsteru/jasm/JasmAssembler.java:83-123 | after the parse, assemble returns Success exactly when no error was recorded, and exactly then the bytecodes can be retrieved |
| AssemblerProperties.AfterParseKeepsEveryClass | src/edu/westminsteru/jasm/JasmAssembler.java:88-123 | on Success there were no parse errors and there is one bytecode per class, in order, named after it |
| AssemblerProperties.ParseErrorsFail | src/edu/westminsteru/jasm/JasmAssembler.java:83-89 | parse errors make assemble return Failure with exactly those errors, sorted by position, and no bytecodes |
| AssemblerProperties.AssembleSucceedsIffClean | src/edu/westminsteru/jasm/JasmAssembler.java:74-148 | after a first call the errors can be retrieved; Success holds exactly when there are none, and exactly then the bytecodes can be retrieved |
| AssemblerProperties.OnlyOnce | src/edu/westminsteru/jasm/JasmAssembler.java:75-77 | a second assemble throws IllegalStateException and changes nothing |
| AssemblerProperties.GettersBeforeAssemble | src/edu/westminsteru/jasm/JasmAssembler.java:130-148 | both getters throw IllegalArgumentException before assemble |
| AssemblerSteps.BindAllBindsEach | src/edu/westminsteru/jasm/JasmAssembler.java:267-269 | each pending label's name is in the label table, and its binding targets that name's label |
| AssemblerSteps.PatternOf | src/edu/westminsteru/jasm/JasmAssembler.java:154-155 | a 32-bit int and its bit pattern correspond |
| AssemblerSteps.WrapMod | src/edu/westminsteru/jasm/JasmAssembler.java:154-155 | wrapping a bit pattern's value is that value |
| AssemblerSteps.Or32Bits | src/edu/westminsteru/jasm/JasmAssembler.java:154-155 | flags \|= bit sets exactly that bit in the flags' bit pattern |
| AssemblerSteps.KindFlagsAdds | src/edu/westminsteru/jasm/JasmAssembler.java:152-156 | interface sets ACC_INTERFACE, enum sets ACC_ENUM, any other kind leaves the flags as they are |
| AssemblerSteps.TableAloneReported | src/edu/westminsteru/jasm/JasmAssembler.java:283-288 | a table that no switch consumes adds "Table not expected" without position |
| AssemblerSteps.SwitchWithoutTable | src/edu/westminsteru/jasm/JasmAssembler.java:234-250 | a switch not followed by a table adds "Expected .table after opcode ..." at its line, emits and binds nothing, and moves on by one; an invalid line number throws instead |
| AssemblerSteps.SwitchTakesTable | src/edu/westminsteru/jasm/JasmAssembler.java:251-263 | a switch takes the table after it and the loop resumes after both, without binding the switch's labels; an AssemblyException becomes one ErrorMessage with its message, the instruction's text and line, and column target start + 1 or UNSPECIFIC |
| AssemblerSteps.InstructionBindsFirst | src/edu/westminsteru/jasm/JasmAssembler.java:266-281 | any other instruction binds its labels first, then is entered; an AssemblyException becomes one ErrorMessage with its message, the instruction's text and line, and column target start + 1 or UNSPECIFIC |
| Chars.ParseJavaInteger | src/edu/westminsteru/cmpt355/jasm/Operands.java:104 | Integer.parseInt and Long.parseLong return only values inside the range they are asked for |
| Chars.ParseInt64 | src/edu/westminsteru/cmpt355/jasm/Operands.java:134 | Long.parseLong returns only values of a 64-bit long |
| Chars.NatToStringValue | src/edu/westminsteru/cmpt355/jasm/Operands.java:104 | the decimal digits written for a natural number read back as that number |
| Chars.DecimalRoundTrip | src/edu/westminsteru/cmpt355/jasm/Operands.java:104 | any value inside the range, written in decimal, parses back to itself |
| Descriptors.ParseFieldType | src/edu/westminsteru/cmpt355/jasm/Operands.java:56 | the field-type parser consumes at least one character and stays inside the text |
| Descriptors.ParseParameters | src/edu/westminsteru/cmpt355/jasm/Operands.java:62-65 | the parameter parser stops at a ')' inside the text |
| Descriptors.RenderMatches | src/edu/westminsteru/cmpt355/jasm/Operands.java:56-60 | the rendering of every well-formed field type matches the field-descriptor pattern |
| Descriptors.BracketMatches | src/edu/westminsteru/cmpt355/jasm/Operands.java:56 | one more '[' before a text of the descriptor pattern still matches it |
| Descriptors.RenderCons | src/edu/westminsteru/cmpt355/jasm/Operands.java:64 | a type rendered as a prefix, before types rendered as the rest, renders as the whole text |
| Descriptors.Parenthesised | src/edu/westminsteru/cmpt355/jasm/Operands.java:63-65 | a text opening with '(' and with ')' at k is '(' + the part between + ')' + the rest |
| Descriptors.ObjectComplete | src/edu/westminsteru/cmpt355/jasm/Operands.java:56 | an L, a class name of pattern characters and a ';' is read as that object type |
| StringViews.View.Text | src/edu/westminsteru/jasm/parser/StringView.java:243-245 | the text of a view within its source has the view's length, and none when inverted |
| StringViews.Texts | src/edu/westminsteru/jasm/parser/StringView.java:243-245 | converting a list of views gives each view's text in order |
| StringViews.SplitJoinNext | src/edu/westminsteru/jasm/parser/StringView.java:218-227 | when more words follow, joining the words gives the first word, the delimiter and the join of the rest |
| StringViews.DelimiterIndexAt | src/edu/westminsteru/jasm/parser/StringView.java:122-140 | the first delimiter position of the text is the index indexOf returns |
| Parser.SegmentsOfSource | src/edu/westminsteru/jasm/parser/JasmParser.java:201-205 | every word split from a view lies within the view's source line |
| ParserProperties.SourceQuiet | src/edu/westminsteru/jasm/parser/JasmParser.java:178-194 | .source never fires the end-of-input callback |
| ParserProperties.ClassQuiet | src/edu/westminsteru/jasm/parser/JasmParser.java:196-219 | .class never fires the end-of-input callback |
| ParserProperties.NameQuiet | src/edu/westminsteru/jasm/parser/JasmParser.java:221-257 | .super and .implements never fire the end-of-input callback |
| ParserProperties.MemberQuiet | src/edu/westminsteru/jasm/parser/JasmParser.java:259-319 | .field and .method never fire the end-of-input callback |
| ParserProperties.CodeQuiet | src/edu/westminsteru/jasm/parser/JasmParser.java:321-335 | .code never fires the end-of-input callback |
| ParserProperties.TableQuiet | src/edu/westminsteru/jasm/parser/JasmParser.java:381-399 | .table never fires the end-of-input callback |
| ParserProperties.BlockHandlersQuiet | src/edu/westminsteru/jasm/parser/JasmParser.java:361-436 | .end code, .end table and table lines never fire the end-of-input callback |
| ParserProperties.StampAppended | src/edu/westminsteru/jasm/parser/JasmParser.java:169-176 | stamping appends callbacks after the earlier ones, each with the current line and number |
| ParserViews.SplitSound | src/edu/westminsteru/jasm/parser/StringView.java:218-227 | every word split from a view is a view whose toString() returns |
| ParserViews.DispatchSound | src/edu/westminsteru/jasm/parser/JasmParser.java:129-165 | every view a line handler passes to the listener is inside its line and not inverted |
| ParserViews.LineSound | src/edu/westminsteru/jasm/parser/JasmParser.java:108-127 | the same holds for every raw line |
| ParserViews.ProcessAllSound | src/edu/westminsteru/jasm/parser/JasmParser.java:68-74 | every callback of the line loop carries sound views |
| ParserViews.ParseSound | src/edu/westminsteru/jasm/parser/JasmParser.java:68-74 | every callback of a whole parse, crashed or not, carries sound views |
| ListenerProperties.LabelNotices | src/edu/westminsteru/jasm/DefaultJasmParserListener.java:110-118 | one label callback per label name |
| ListenerProperties.RowNotices | src/edu/westminsteru/jasm/DefaultJasmParserListener.java:147-149 | one table-line callback per row |
| ListenerProperties.ReplayFirst | src/edu/westminsteru/jasm/DefaultJasmParserListener.java:43-160 | replaying callbacks acts on the first one and then on the rest |
| ListenerProperties.LabelStep | src/edu/westminsteru/jasm/DefaultJasmParserListener.java:110-118 | a label not yet queued is appended to the label queue |
| ListenerViews.CommitSound | src/edu/westminsteru/jasm/DefaultJasmParserListener.java:162-179 | committing moves only sound views into the class list |
| ListenerViews.ClassSound | src/edu/westminsteru/jasm/DefaultJasmParserListener.java:63-71 | a .class callback keeps every held view sound |
| ListenerViews.LabelSound | src/edu/westminsteru/jasm/DefaultJasmParserListener.java:110-118 | queuing a label keeps every held view sound |
| ListenerViews.InstructionSound | src/edu/westminsteru/jasm/DefaultJasmParserListener.java:121-127 | recording an instruction keeps every held view sound |
| ListenerViews.EndCodeSound | src/edu/westminsteru/jasm/DefaultJasmParserListener.java:129-140 | storing a method's code keeps every held view sound |
| ListenerViews.NoticeSound | src/edu/westminsteru/jasm/DefaultJasmParserListener.java:43-160 | each callback of sound views keeps every held view sound |
| ListenerViews.ReplaySound | src/edu/westminsteru/jasm/DefaultJasmParserListener.java:43-160 | a replay of sound callbacks that ends normally leaves every held view sound |
| ListenerViews.ParsedSound | src/edu/westminsteru/jasm/DefaultJasmParserListener.java:43-179 | after a whole parse from a fresh start the listener holds only sound views |

## Left out

- Input and output: reading the source file, `BufferedReader.lines()` (the input is a sequence of lines), writing class files, both `Main` classes, and the `print` methods of `ErrorMessage` and `JasmSyntaxException`.
- The class-file API (`ClassFile`, `ClassBuilder`, `CodeBuilder`, `ClassDesc`, `MethodTypeDesc`), because it is a foreign library. It is replaced by a recording sink. Bytes, the constant pool, jump-width fixing, and the API's own validation (`ClassDesc.ofInternalName`, `ofDescriptor`) are not modelled. So the `catchError` wrappers around the flags, source, superclass and interfaces never record a message in the model.
  - The same holds for what the code builder checks when a method's code is finished: a branch or switch to a label that is never bound, one label name bound before two different instructions (the listener only refuses a repeat among the labels pending since the last instruction), and a class name or descriptor operand that `ClassDesc`/`MethodTypeDesc` would reject. The library is expected to throw from `withCode` in these cases, which buildMethod's `catchError` would turn into an "Invalid .method: " message and the assembly into a Failure. In the model such a program assembles to a Success: `Resolve` hands out labels that may never be bound, and `BindAll` binds a name again at each place it is written.
- `src/edu/westminsteru/cmpt355/jasm/JasmAssembler.java`, because it refers to undeclared fields and has no behaviour to state.
- The commented-out operand parser at `src/edu/westminsteru/cmpt355/jasm/parser/JasmParser.java:361-463`, because it is dead code.
- The reflection cache of `Instructions.enter`. Emitting an opcode by name is a direct call on the sink. The lookup's failure is kept: `HasNoArgBuilder` names the one opcode of the reflective arm, checkcast, for which CodeBuilder has no no-argument method, and `Emission` fails on it with "Internal assembler error (please report)" as the source does. The branch arm's lookup of a method taking a `Label` never fails for the opcodes listed there, so its "Internal error (please report)" is not modelled.
- Emission: the case lists of `enter`'s switch (`Instructions.java:55-241`), that is, which opcode takes which arm and the slots 0..3 of `aload_0` .. `lstore_3`, are not stated; they are carried by each opcode description's `form` in the opcode-table parameter. An opcode given a form other than its own case in the source is emitted by the arm it is given.
- Floating point: `Float.parseFloat`, `Double.parseDouble`, `intBitsToFloat` and `longBitsToDouble`.
  - Acceptance is a parameter.
  - A decimal literal keeps its text.
  - An `fb`/`db` literal keeps its integer bit pattern.
- Unicode:
  - a character is one code point, with no surrogate pairs;
  - `Character.isAlphabetic` is a parameter;
  - `Character.digit` and case folding are ASCII only, so `Integer.parseInt` does not accept non-ASCII digits here.
- Exception texts that the Java runtime makes up (NullPointerException, index and number-format messages) are a parameter of the assembler, not fixed strings.
- The cause of an assembly error. When an AssemblyException has a cause with a message, buildMethodCode appends "\n" and that message. The model's assembly errors carry no cause, so a diagnostic holds the exception's own message only; for checkcast this drops the text of the NoSuchMethodException that the source appends.
- The listener is driven by a replay of the recorded callbacks rather than called by the parser directly. This is equivalent, because no callback calls back into the parser except to read its current line and line number, and each recorded callback carries those.
- LegacyParser.Dispatch: the older parser's `.field` and `.method` handlers (`src/edu/westminsteru/cmpt355/jasm/parser/JasmParser.java:229`, `:260`) call `Flags::isValidFlag` on the older `Flags` class, which declares only `flags` and `flag` (`src/edu/westminsteru/cmpt355/jasm/Flags.java:7`, `:11`), so that parser does not compile as written. The model gives it the newer `Flags.IsValidFlag` (through `Parser.MemberResponse`). This is the check the call evidently means: `LegacyFlags.FlagAgrees` proves the two `flag` methods accept the same words with the same bits. `LegacyParserProperties.AgreesOnField`/`AgreesOnMethod` rest on this choice.
- The older listener's records hold strings where its parser passes views, and its `codeInstruction` takes a `List<Operand>` of operands while its `Instruction` record holds a list of views. The model converts each view to its text, so an older instruction's opcode, labels and operands are each a string, and an operand is kept as its raw text rather than as a typed `Operand`.
- StringViews.View.Tail: the source throws when the two views' backing strings are not the same object; the model compares the strings by content, so two views over equal but distinct string objects are not told apart. Within the parser every head passed to `tail` is taken from the view itself, so the two tests agree there.
- The `Opcode` and `OperandType` definitions are not part of this model. Only the operand kinds that the casts in `Instructions.java` rely on are used.
- Assembler.Or32: idempotence of or-ing a bit is not stated separately. `AssemblerSteps.Or32Bits` states the bit pattern the result has.
