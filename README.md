# DBC parser model

This project models the parsing engine of a reader for DBC files. A DBC file
is a line-oriented text description of a CAN bus: its messages, their
signals, its nodes, value tables and attributes. The engine reads a file one
line at a time and does two things with each line:

1. It **classifies** the line. Each registered token (`VERSION`, `BO_`,
   `SG_`, `BU_`, `BS_`, `CM_`, `CM_ BO_`, `CM_ SG_`, `VAL_TABLE_`, `VAL_`,
   `BA_DEF_`, `BA_DEF_DEF_`, ...) whose name starts the line is a candidate.
   The current engine (`Parser.parseLine`) picks the longest candidate. The
   older engine (`Dbc.basicTokenization`) picks the last one in registry
   order. Either way, the chosen token's regular expression is run on the
   line.
2. It **applies** the line to the database record (`DbcData`). Depending on
   the token, it:
   - sets the version, node list, bus speed or comment;
   - adds a message, or a signal to the most recently declared message;
   - finds a message by numeric id to attach a comment or a value table;
   - stores a value table;
   - defines an attribute, or sets an attribute's default value.

The model has these modules:

- `Wrappers`: `Option`.
- `JsMap`: a JavaScript `Map` as a sequence of key/value pairs with
  distinct keys. `Set` replaces a value in place or appends a new key, so
  insertion order is kept.
- `JsText`: the string built-ins the source relies on, namely `trimStart`,
  `trim`, `split`, `parseInt` (an unbounded integer, with `None` standing
  for `NaN`) and
  `replace(/"/g, '')`. It also holds the small scanners that play the part of
  the fixed regular expressions in `generateAttribute`.
- `DbcTypes`: the types of `types.ts`. It also holds the abstract token
  registry, in which a token's `dataFormat` is a function from a line to its
  named capture groups or to no match. Finally, it holds the record
  invariant `WellFormed`: every map in the database has distinct keys, and
  every signal is stored under its own name.
- `Parser`: the functions of `Parser` as pure functions over values. The
  per-line transition is `Apply`, and `ParseAll` folds it over the lines of
  a file. `ParseLine`, `GetMessageByIdFromData` and `ExtractDefinition` are
  the source's loops, written as methods and proved against those functions.
  `GenerateAttribute` is the source's `switch` on the data type, with its
  fall-through from `FLOAT` into `ENUM`, written as a method and proved
  against `AttributeOf`.
- `ParserState`: `DbcData` as a mutable object, `DbcTable`.
  `parseLineFromBaseToken` and each of its branches are methods that update
  it in place. Each method is proved to leave exactly the state the pure
  transition gives, and to keep `WellFormed`.
- `ParserProperties`, `TransitionProperties`, `DefinitionProperties`: the
  lemmas about the transition. They cover:
  - which token labels are handled;
  - inert lines;
  - composition over files;
  - last-write-wins fields;
  - messages followed by their signals;
  - lookup by id;
  - comments and value tables attached to existing entities;
  - the value-description round trip;
  - attribute definitions and defaults;
  - preservation of the record invariant.
- `LegacyDbc`, `LegacyProperties`: the older engine in `dbc.ts`, together with
  its own record (`LegacyTable`), load loop and lemmas. It shares the token
  registry with the current engine.

Both engines say "nothing happens" in the same three situations, and the
model keeps all three:

- no token starts the line;
- the token's regular expression does not match;
- a referenced message, signal or attribute does not exist.

## Model

| member | source | states |
|---|---|---|
| Parser.Chosen | src/dbc/parser.ts:42-56 | The chosen token is a prefix of the trimmed line. No matching token is longer, and every earlier matching token is strictly shorter, so ties go to the first token in registry order. There is no choice exactly when no token matches. |
| Parser.FirstLongestUnique | src/dbc/parser.ts:51-56 | The longest-match-first choice is unique, so classification is deterministic. |
| Parser.ParseLine | src/dbc/parser.ts:35-59 | The loop over the registry collects every matching token with its match result into a map, then sorts the keys by length. Its result is the classification `Classify`: the line, the longest matching token, and that token's match on the untrimmed line. |
| Parser.CollectedBest | src/dbc/parser.ts:51-57 | Once every matching token has been collected in registry order, the first entry of greatest length is the token `Chosen` selects. The stable length sort keeps registry order among equal lengths. |
| Parser.CollectTokens | src/dbc/parser.ts:42-49 | The `forEach` over the registry leaves in `foundTokens` every token that prefixes the trimmed line, with its match, in registry order. |
| Parser.SetEach | src/dbc/parser.ts:42-49 | `set`-ing each accepted registry position in turn, with keys that never repeat, leaves exactly the accepted entries in registry order. |
| Parser.SortedHead | src/dbc/parser.ts:51-57 | The key the length sort puts first is a key of greatest length, and no earlier key has that length. There is none exactly when no token was found. |
| TransitionProperties.IndentationIgnoredByClassification | src/dbc/parser.ts:43-45 | Leading whitespace does not change which token is chosen. The regular expression still sees the untrimmed line. |
| Parser.ParseMessage | src/dbc/parser.ts:240-250 | A new message takes its name from the capture, has no signals and has no description. |
| TransitionProperties.ParseMessageOfFields | src/dbc/parser.ts:240-250 | Decimal id and DLC fields are read back as the integers they write. The sending node is copied as is. |
| Parser.SignalFields | src/dbc/parser.ts:252-270 | A parsed signal keeps its name and has no description or value table. It is Intel exactly when the endian field parses to 1, otherwise Motorola. It is signed exactly when the sign field is `-`. Its receiving-node list is non-empty and no entry holds a space. |
| TransitionProperties.ReceivingNodesOfNames | src/dbc/parser.ts:265 | A receiving-node field made of names separated by single spaces gives back exactly those names. |
| Parser.ParseCanNodes | src/dbc/parser.ts:277-280 | The node list is non-empty and no entry holds a space. |
| TransitionProperties.NodeListOfNames | src/dbc/parser.ts:96-98 | A `BU_` line listing names separated by single spaces sets `canNodes` to exactly those names. |
| TransitionProperties.WordsRoundTrip | src/dbc/parser.ts:278 | `trim` followed by `split(' ')` inverts joining non-empty, whitespace-free names with single spaces. |
| TransitionProperties.BusSpeed | src/dbc/parser.ts:99-101 | A `BS_` line sets the bus speed to the integer its decimal speed field writes, and changes nothing else. |
| Parser.CreateAttributeType | src/dbc/parser.ts:158-169 | The kind is Message, Node or Signal exactly when the code is `BO_`, `BU_` or `SG_`, and Global exactly when it is none of them. |
| Parser.GenerateAttribute | src/dbc/parser.ts:171-203 | The attribute keeps its name and data type and has no value. With an empty config, or a data type other than INT, FLOAT and ENUM, it has no bounds and no enumeration. |
| DefinitionProperties.AttributeBase | src/dbc/parser.ts:171-181 | The attribute kind is `createAttributeType` of the code, and the attribute starts without a value. |
| DefinitionProperties.IntAttribute | src/dbc/parser.ts:192-195 | For INT, a config `lo hi` gives integer bounds lo and hi and no enumeration. |
| DefinitionProperties.FloatAttributeBounds | src/dbc/parser.ts:196-198 | For FLOAT, a config `lo hi` gives the bounds `parseFloat(lo)` and `parseFloat(hi)`. |
| DefinitionProperties.FloatAttributeAlsoEnumerates | src/dbc/parser.ts:196-200 | FLOAT falls through into the ENUM case, so a FLOAT attribute also records the alphanumeric runs of its config as an enumeration. |
| DefinitionProperties.EnumAttribute | src/dbc/parser.ts:189-200 | For ENUM, a config of alphanumeric words gives back those words as the enumeration, and no bounds. |
| DefinitionProperties.NoSpaceNoBounds | src/dbc/parser.ts:186-198 | A config without a space does not match the min/max pattern, so there are no bounds. |
| DefinitionProperties.OtherDataTypesPlain | src/dbc/parser.ts:183-201 | An empty config, or any other data type, gives the plain attribute with no value, bounds or enumeration. |
| Parser.FirstById | src/dbc/parser.ts:218-225 | It finds the first message in insertion order whose id equals the wanted id under JavaScript `===`, so `NaN` matches nothing. It finds none exactly when no message has that id. |
| Parser.GetMessageByIdFromData | src/dbc/parser.ts:218-225 | The loop over the messages returns the position `FirstById` specifies. |
| TransitionProperties.FirstByIdIsFirst | src/dbc/parser.ts:218-225 | When message i is the first with the id, the lookup returns i. |
| ParserProperties.SignalFoundByName | src/dbc/parser.ts:212-216 | The signal that `getSignalByNameFromMsg` finds in a well-formed message carries the name it was looked up by. |
| Parser.LeadingValueChars | src/dbc/parser.ts:228 | It measures the longest run of `[0-9-]` characters at the start of the text. |
| Parser.ClosingQuote | src/dbc/parser.ts:228 | The position found is the first `"` whose prefix is a label (`LabelText`: no bare quote or backslash, and each backslash escapes one character that is not a line terminator). None means that no `"` in the text closes a label. |
| Parser.ExtractDefinition | src/dbc/parser.ts:227-238 | The loop over the matches builds the table `DefinitionTable` specifies. |
| ParserProperties.DefinitionTableDistinct | src/dbc/parser.ts:230-236 | A value table never holds a key twice. |
| DefinitionProperties.LastDescriptionWins | src/dbc/parser.ts:230-236 | A value reads the label of the last description whose value text parses to it: a later `set` for the same key overwrites an earlier one. |
| JsMap.SetAllGet | src/dbc/parser.ts:230-236 | After a run of `Map.set` calls, a key reads the last value set for it, or its old value when none was set. |
| DefinitionProperties.ValueTableKeys | src/dbc/parser.ts:232-236 | A value is a key of the table exactly when some description's value parses to it. |
| DefinitionProperties.NoQuoteNoDescriptions | src/dbc/parser.ts:228-229 | Text without a quote has no descriptions and gives an empty table. |
| DefinitionProperties.DescriptionsRoundTrip | src/dbc/parser.ts:227-238 | Writing descriptions `v "label"` and extracting them gives each value the label last written for it. |
| DefinitionProperties.DescriptionsInOrder | src/dbc/parser.ts:227-238 | Descriptions with distinct values come back as the table of exactly those pairs, in the order written. |
| DefinitionProperties.EscapedQuoteKept | src/dbc/parser.ts:228 | An escaped quote inside a label is kept verbatim and does not end the label. |
| DefinitionProperties.OffOnTable | src/dbc/parser.ts:227-238 | `0 "Off" 1 "On"` gives the table {0: Off, 1: On}. |
| ParserProperties.CaseLabels | src/dbc/parser.ts:79-149 | Each of the thirteen token labels selects its own branch. |
| ParserProperties.OtherTokensIgnored | src/dbc/parser.ts:151-152 | A token has no branch exactly when it is none of the thirteen labels. |
| TransitionProperties.InertLineIsNoOp | src/dbc/parser.ts:68-78 | A line that no token starts, or whose regular expression does not match, leaves the database unchanged. |
| TransitionProperties.InertLinesAreNoOps | src/dbc/parser.ts:68-78 | Any run of such lines leaves the database unchanged. |
| TransitionProperties.ParseAllAppend | src/dbc/parser.ts:67-156 | Parsing two pieces of a file one after the other is the same as parsing the whole file. |
| TransitionProperties.LastWriteWins | src/dbc/parser.ts:80-104 | For `VERSION`, `BU_`, `BS_` and `CM_`, a second line of the same kind overrides the first. |
| TransitionProperties.NodeCommentIgnored | src/dbc/parser.ts:105-106 | A `CM_ BU_` line changes nothing. |
| TransitionProperties.MessageDeclaration | src/dbc/parser.ts:83-85 | A `BO_` line stores a new message, with no signals, under its name. A redeclared name keeps its position and a new name is appended. Every other message and every other field is unchanged. |
| TransitionProperties.SignalDeclaration | src/dbc/parser.ts:86-95 | An `SG_` line stores the parsed signal under its name in the last message in insertion order. Every other message and every other field is unchanged. |
| TransitionProperties.AddSignalToLastLaws | src/dbc/parser.ts:89-93 | Adding a signal to the last message sets it there, keeps the message keys, and leaves every other message alone. |
| TransitionProperties.SignalWithoutMessageIsNoOp | src/dbc/parser.ts:89-91 | An `SG_` line before any message changes nothing. |
| TransitionProperties.RedeclaredMessageDoesNotReceiveSignals | src/dbc/parser.ts:83-93 | A redeclared message keeps its place, so a following signal goes to the message that is last in insertion order rather than to the redeclared one. |
| TransitionProperties.NewMessageReceivesSignal | src/dbc/parser.ts:83-93 | A newly declared message followed by a signal line holds exactly that signal. |
| TransitionProperties.MessageThenSignals | src/dbc/parser.ts:83-95 | A `BO_` line for a new name followed by `SG_` lines with distinct names yields that message holding exactly those signals in order. Nothing else changes except the appended key. |
| TransitionProperties.UnknownIdIsNoOp | src/dbc/parser.ts:107-132 | `CM_ BO_`, `CM_ SG_` and `VAL_` lines naming an id no message has change nothing. |
| TransitionProperties.UnknownSignalIsNoOp | src/dbc/parser.ts:113-132 | `CM_ SG_` and `VAL_` lines naming a signal the message lacks change nothing. |
| TransitionProperties.MessageComment | src/dbc/parser.ts:107-112 | A `CM_ BO_` line sets the description of the first message with the id, and nothing else. |
| TransitionProperties.SignalComment | src/dbc/parser.ts:113-121 | A `CM_ SG_` line sets the description of the named signal of the first message with the id, and nothing else. |
| TransitionProperties.SignalValueTable | src/dbc/parser.ts:126-132 | A `VAL_` line sets the named signal's value table to the extracted definition, and nothing else. |
| TransitionProperties.ValueTableDeclaration | src/dbc/parser.ts:122-125 | A `VAL_TABLE_` line stores the extracted table under its name when the database has a value-table map, and is a no-op when it has none. A name already present keeps its place in key order, and a new name is appended last. |
| TransitionProperties.AttributeDefinition | src/dbc/parser.ts:133-136 | A `BA_DEF_` line stores the generated attribute, without a value, under its name, and nothing else changes. A redefined name keeps its place in key order, and a new name is appended last. |
| TransitionProperties.AttributeDefaultIgnored | src/dbc/parser.ts:137-140 | A `BA_DEF_DEF_` line with an empty or unknown attribute name changes nothing. |
| TransitionProperties.AttributeDefault | src/dbc/parser.ts:137-149 | A `BA_DEF_DEF_` line gives the named attribute a string value. That value is `RemoveAll(data, '"')`: the data with every `"` removed and the other characters kept in order (`JsText.RemoveAllAppend`). It is the data itself when the data has no quote, and `''` when the data is empty. Nothing else changes, and the attribute keys keep their order. |
| ParserProperties.ApplyPreservesWellFormed | src/dbc/parser.ts:67-156 | Every line keeps the database well formed: distinct keys everywhere, and each signal stored under its own name. |
| TransitionProperties.ParseAllPreservesWellFormed | src/dbc/parser.ts:67-156 | A whole file keeps the database well formed. |
| ParserState.DbcTable.constructor | src/dbc/types.ts:41-49 | A database record holds exactly the given contents. |
| ParserState.ParseLineFromBaseToken | src/dbc/parser.ts:67-156 | Updating the record in place leaves exactly `Apply` of the old contents, and keeps it well formed. |
| ParserState.AddSignal | src/dbc/parser.ts:86-95 | The in-place `SG_` branch updates only the message map, adding the signal to the last message. |
| ParserState.CommentMessageById | src/dbc/parser.ts:107-112 | The in-place `CM_ BO_` branch leaves the state its pure counterpart gives. |
| ParserState.CommentSignalById | src/dbc/parser.ts:113-121 | The in-place `CM_ SG_` branch leaves the state its pure counterpart gives. |
| ParserState.AddValueTable | src/dbc/parser.ts:122-125 | The in-place `VAL_TABLE_` branch leaves the state its pure counterpart gives. |
| ParserState.AssignValueTableById | src/dbc/parser.ts:126-132 | The in-place `VAL_` branch, through `assignToSigValTable`, leaves the state its pure counterpart gives. |
| ParserState.DefineAttribute | src/dbc/parser.ts:133-136 | The in-place `BA_DEF_` branch leaves the state its pure counterpart gives. |
| ParserState.SetAttributeDefaultValue | src/dbc/parser.ts:137-149 | The in-place `BA_DEF_DEF_` branch leaves the state its pure counterpart gives. |
| ParserState.ParseLines | src/dbc/parser.ts:35-156 | Classifying and applying each line in turn leaves `ParseAll` of the old contents, and keeps the record well formed. |
| LegacyDbc.LegacyMatchesAsWritten | src/dbc/dbc.ts:93-98 | A token matches when the raw line starts with it, or when the token is `SG_` and the line without its indentation starts with it. |
| LegacyDbc.LastMatch | src/dbc/dbc.ts:92-103 | The chosen token matches, no later token in the registry matches, and there is none exactly when no token matches. |
| LegacyDbc.BasicTokenization | src/dbc/dbc.ts:87-110 | The loop's result is the legacy classification. It keeps the line, and it finds a token exactly when some token matches. |
| LegacyProperties.IndentedLineOnlySignal | src/dbc/dbc.ts:93-98 | On an indented line, no token other than `SG_` matches. |
| LegacyProperties.IndentedSignalFound | src/dbc/dbc.ts:98 | An indented signal line still matches `SG_`. |
| LegacyProperties.LaterShorterTokenWins | src/dbc/dbc.ts:92-103 | When a longer token precedes a shorter prefix of it, the legacy engine picks the shorter one and the current engine picks the longer one. |
| LegacyDbc.EmptyData | src/dbc/dbc.ts:48-55 | A new database has no version, messages, description, bus speed, nodes or namespace. |
| LegacyDbc.LegacyTable.constructor | src/dbc/dbc.ts:44-56 | A new `Dbc` holds the empty database. |
| LegacyDbc.AddToDataTable | src/dbc/dbc.ts:112-173 | Updating the record in place leaves exactly the legacy transition of the old contents. |
| LegacyProperties.LegacyCaseLabels | src/dbc/dbc.ts:121-167 | The five handled token labels select their branches. |
| LegacyProperties.LegacyOtherTokensIgnored | src/dbc/dbc.ts:168-169 | A token has no branch exactly when it is none of the five labels. |
| LegacyProperties.LegacyInertLineIsNoOp | src/dbc/dbc.ts:113-120 | A line without a token or without a match leaves the database unchanged. |
| LegacyProperties.LegacyInertLinesAreNoOps | src/dbc/dbc.ts:77-80 | Any run of such lines leaves the database unchanged. |
| LegacyProperties.LegacyParseAllAppend | src/dbc/dbc.ts:77-80 | Loading two pieces of a file one after the other is the same as loading the whole file. |
| LegacyDbc.LoadLines | src/dbc/dbc.ts:58-85 | Starting from the empty database, tokenizing and applying each line in turn leaves the legacy fold of the lines. |
| LegacyDbc.MessageOf | src/dbc/dbc.ts:127-134 | A legacy message is named after its capture and has no signals and no description. |
| LegacyDbc.SetMessage | src/dbc/dbc.ts:126-136 | The in-place `BO_` branch leaves the state its pure counterpart gives. |
| LegacyProperties.LegacyMessageDeclaration | src/dbc/dbc.ts:126-136 | A `BO_` line stores the new message under its name, and no other name's message changes. A name already present keeps its position in key order, and a new name is appended last, which decides the message a later `SG_` joins. No other field changes. |
| LegacyDbc.AddSignalToLastMessage | src/dbc/dbc.ts:137-163 | The in-place `SG_` branch leaves the state its pure counterpart gives. |
| LegacyProperties.LegacySignalDeclaration | src/dbc/dbc.ts:137-163 | An `SG_` line stores the signal under its name in the last message, and nothing else changes. |
| LegacyProperties.AddToLastLaws | src/dbc/dbc.ts:140-161 | Adding to the last message sets the signal there and leaves every other message alone. |
| LegacyProperties.LegacySignalWithoutMessageIsNoOp | src/dbc/dbc.ts:140-142 | An `SG_` line before any message changes nothing. |
| LegacyProperties.FactorTruncated | src/dbc/dbc.ts:151 | The legacy factor is read with `parseInt`, so a decimal fraction is cut off. |
| LegacyProperties.ParseIntOfFraction | src/dbc/dbc.ts:147-154 | `parseInt` of `whole.fraction` is the value of the whole part. |
| LegacyProperties.RawEndiannessAndSign | src/dbc/dbc.ts:144-157 | Endianness and sign are copied as raw text, and the signal has no description. |
| LegacyProperties.ReceivingNodesMisspelt | src/dbc/dbc.ts:156 | Receiving nodes come from the misspelt group `recevingNodes`. A correctly spelt `receivingNodes` group is ignored. |
| LegacyDbc.SetNodesAndSpeed | src/dbc/dbc.ts:164-167 | The in-place `BU_`/`BS_` branch leaves the state its pure counterpart gives. |
| LegacyProperties.NodesFallThrough | src/dbc/dbc.ts:164-167 | `BU_` falls through into `BS_`. A node line also sets the bus speed to `parseInt` of a `speed` group, which is `NaN` when the group is absent. The current engine's node line leaves the speed alone. |
| LegacyProperties.LegacyNodeList | src/dbc/dbc.ts:165 | A `BU_` line listing names separated by single spaces sets the node list to exactly those names. |
| LegacyProperties.LegacyLastWriteWins | src/dbc/dbc.ts:122-167 | For `VERSION`, `BU_` and `BS_`, a second line of the same kind overrides the first. |
| LegacyProperties.LegacyApplyPreservesWellFormed | src/dbc/dbc.ts:112-173 | Every line keeps the legacy database's keys distinct, with each signal under its own name. |
| LegacyProperties.LegacyParseAllPreservesWellFormed | src/dbc/dbc.ts:77-80 | Loading a whole file keeps the legacy database well formed. |
| JsMap.SetKeys | src/dbc/parser.ts:84 | `Map.set` keeps the key order when the key exists, and appends the key otherwise. |
| JsText.ParseIntOfDecimal | src/dbc/parser.ts:243-244 | `parseInt` reads back the decimal text of any integer. |
| JsText.RemoveAll | src/dbc/parser.ts:143 | Removing every `"` leaves no quote and keeps every other character as often as before. |
| JsText.RemoveAllAppend | src/dbc/parser.ts:143 | What `replace(/"/g, '')` leaves of a concatenation is what it leaves of each part, in order. With `RemoveAllSingle` this pins the result down: the other characters are kept in their order. |
| JsText.RemoveAllSingle | src/dbc/parser.ts:143 | One character is dropped exactly when it is `"`, and kept otherwise. |

## Left out

- `Dbc.load`'s file stream and `readline` are not modelled. The file is
  given as a sequence of lines, and the CR LF handling of `readline` is not
  modelled.
- The token registry in `./tokens` is not part of this model. Each token's
  regular expression is an arbitrary function from a line to its named
  captures or to no match, and every property holds for any registry.
- `parseFloat` is uninterpreted. A float field holds the text it was read
  from (`ParseFloatOf`), so the model proves which text feeds each float but
  not its numeric value.
- Exceptions that escape the `switch` are not modelled. Examples are
  `.trim()` on an absent group in `parseSignal` or `parseCanNodes`, and a
  match without named groups. Where the source calls a method on an absent
  group (`.trim()`) it throws, and the model reads the group as `""`. Where
  the source copies `undefined` into a nullable field, the model gives "no
  value".
- An absent `messageName` or `name` group is `undefined` in the source. The
  source then uses it as a `Map` key (src/dbc/parser.ts:84, 93, 124, 135), a
  key distinct from `""`. An absent `unit` or `dataType` is stored as
  `undefined` too. The model reads each of them as `""`, so a line without
  such a capture is filed under, or holds, `""` instead of `undefined`.
- JsText.ParseInt: gives an unbounded integer where `parseInt` gives an
  IEEE-754 double. Above 2^53 distinct digit strings round to the same
  number, and very long digit runs give `Infinity`. So `Parser.FirstById`
  (which compares with `===`) and the keys of a `VAL_` table agree with the
  source only for values below 2^53 in magnitude. For example, the source
  finds a message declared with id `9007199254740992` for the line
  `CM_ BO_ 9007199254740993 "x";`, and the model does not. CAN identifiers
  fit in 29 bits and lengths in a few bits, so DBC files stay in that
  range.
- `Parser.addToken`, `Dbc.addToken` and the empty `decode`/`encode` stubs are
  left out. They are one-line registry writes or have no body.
- In the source, messages, signals and attributes stored in the maps are
  objects that the branches mutate through a reference. The model replaces
  the stored value under the same key. Nothing else in the source holds
  those references, so the two agree. Aliasing of the shared `tokens`
  module object between instances is not modelled.
- `basicTokenization` tests the keys of its `tokens` argument but runs the
  regular expression from `this.tokens`. The model uses one registry for
  both, which is how `load` calls it.
- The frame and configuration types in `types.ts`, `src/index.ts` and the
  test file are not part of this model.
- Parser.ParseVersion, Parser.ParseSignal and Parser.ParseCanConfiguration:
  they carry no contract of their own. What they promise is stated by
  `Parser.SignalFields`, `TransitionProperties.ReceivingNodesOfNames`,
  `TransitionProperties.BusSpeed` and `TransitionProperties.LastWriteWins`.
- Ties between tokens of equal length go to the first one registered,
  because the length sort in `parseLine` is stable.
- `BA_DEF_DEF_` removes every `"` in the data, not only a surrounding pair
  (`TransitionProperties.AttributeDefault`).
- Node lists are split on single spaces after `trim`, so a run of spaces
  gives empty names. The round-trip lemmas assume single spaces.
