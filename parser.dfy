/** The current DBC line engine (src/dbc/parser.ts): `parseLine` picks the token
    a line belongs to and applies its pattern; `parseLineFromBaseToken` folds
    the captured groups into the database. The in-place version of the latter,
    over a mutable table, is in module ParserState; `Apply` here is the value
    it computes. */
module Parser {
  import opened Wrappers
  import opened JsMap
  import opened JsText
  import opened DbcTypes

  /** What `parseLine` returns: the line, the chosen token (None for
      `undefined`) and the chosen token's match wrapped in a one-element array
      (None for `undefined`, Some(None) for `[null]`). */
  datatype LineInfo = LineInfo(line: string, baseToken: Option<string>, regexMatch: Option<Option<Groups>>)

  // ---------------------------------------------------------------------------
  // Classification (parseLine)
  // ---------------------------------------------------------------------------

  /** `line.trimStart().startsWith(token)`: the prefix test ignores indentation. */
  predicate PrefixMatches(line: string, token: string) {
    StartsWith(TrimStart(line), token)
  }

  /** Among the registry's first `n` entries, position `i` holds a matching
      token that is at least as long as every matching token, and strictly
      longer than every matching token before it. */
  ghost predicate IsFirstLongestIn(tokens: Tokens, line: string, n: nat, i: nat) {
    && i < n <= |tokens|
    && PrefixMatches(line, tokens[i].0)
    && (forall j :: 0 <= j < n && PrefixMatches(line, tokens[j].0) ==> |tokens[j].0| <= |tokens[i].0|)
    && (forall j :: 0 <= j < i && PrefixMatches(line, tokens[j].0) ==> |tokens[j].0| < |tokens[i].0|)
  }

  /** The same over the whole registry. */
  ghost predicate IsFirstLongest(tokens: Tokens, line: string, i: nat) {
    IsFirstLongestIn(tokens, line, |tokens|, i)
  }

  /** The first longest match among the registry's first `n` entries. */
  function ChosenIn(tokens: Tokens, line: string, n: nat): (r: Option<nat>)
    requires n <= |tokens|
    ensures r.Some? ==> IsFirstLongestIn(tokens, line, n, r.value)
    ensures r.None? <==> forall j :: 0 <= j < n ==> !PrefixMatches(line, tokens[j].0)
    decreases n
  {
    if n == 0 then None
    else
      var b := ChosenIn(tokens, line, n - 1);
      var m := PrefixMatches(line, tokens[n - 1].0);
      if m && (b.None? || |tokens[n - 1].0| > |tokens[b.value].0|) then Some(n - 1)
      else
        assert b.Some? ==> PrefixMatches(line, tokens[b.value].0);
        b
  }

  /** The registry position of the token `parseLine` chooses: among the tokens
      that prefix the trimmed line, the longest; among equally long ones, the
      earliest in registry order (the sort is stable). None when no token matches. */
  function Chosen(tokens: Tokens, line: string): (r: Option<nat>)
    ensures r.Some? ==> IsFirstLongest(tokens, line, r.value)
    ensures r.None? <==> forall j :: 0 <= j < |tokens| ==> !PrefixMatches(line, tokens[j].0)
  {
    ChosenIn(tokens, line, |tokens|)
  }

  /** At most one position is the first longest match. */
  lemma FirstLongestUnique(tokens: Tokens, line: string, i: nat, k: nat)
    requires IsFirstLongest(tokens, line, i) && IsFirstLongest(tokens, line, k)
    ensures i == k
  {
  }

  /** The value `parseLine` returns. The chosen token's pattern is applied to the
      line as given, indentation included. */
  function Classify(tokens: Tokens, line: string): LineInfo {
    match Chosen(tokens, line)
    case None => LineInfo(line, None, None)
    case Some(i) => LineInfo(line, Some(tokens[i].0), Some(tokens[i].1.dataFormat(line)))
  }

  /** After the positions below `i`, `found` holds `entry(t)` for each
      position `t` passing `hit`, in increasing order; `from` gives the
      positions. */
  ghost predicate Gathered<V>(hit: nat -> bool, entry: nat -> V, found: seq<V>, from: seq<nat>, i: nat) {
    && |from| == |found|
    && (forall j :: 0 <= j < |from| ==> from[j] < i && hit(from[j]))
    && (forall j :: 0 <= j < |from| ==> found[j] == entry(from[j]))
    && (forall j, l :: 0 <= j < l < |from| ==> from[j] < from[l])
    && (forall t :: 0 <= t < i && hit(t) ==> t in from)
  }

  /** A position that fails the test is skipped. */
  lemma GatherSkip<V>(hit: nat -> bool, entry: nat -> V, found: seq<V>, from: seq<nat>, i: nat)
    requires Gathered(hit, entry, found, from, i) && !hit(i)
    ensures Gathered(hit, entry, found, from, i + 1)
  {
    forall t | 0 <= t < i + 1 && hit(t) ensures t in from {
      assert t < i;
    }
  }

  /** A position that passes the test is appended with its entry. */
  lemma GatherAppend<V>(hit: nat -> bool, entry: nat -> V, found: seq<V>, from: seq<nat>, i: nat)
    requires Gathered(hit, entry, found, from, i) && hit(i)
    ensures Gathered(hit, entry, found + [entry(i)], from + [i], i + 1)
  {
    var found', from' := found + [entry(i)], from + [i];
    assert forall j :: 0 <= j < |from| ==> found'[j] == found[j] && from'[j] == from[j];
    forall t | 0 <= t < i + 1 && hit(t) ensures t in from' {
      if t < i {
        assert t in from;
      } else {
        assert from'[|from|] == t;
      }
    }
  }

  /** Whether registry position `t` prefixes the line. */
  function HitAt(tokens: Tokens, line: string): nat -> bool {
    (t: nat) => t < |tokens| && PrefixMatches(line, tokens[t].0)
  }

  /** What `parseLine` records for registry position `t`: the token and its match. */
  function EntryAt(tokens: Tokens, line: string): nat -> (string, Option<Groups>) {
    (t: nat) => if t < |tokens| then (tokens[t].0, tokens[t].1.dataFormat(line)) else ("", None)
  }

  /** The positions below `i` that pass `hit`, in increasing order. */
  ghost function Positions(hit: nat -> bool, i: nat): seq<nat> {
    if i == 0 then []
    else if hit(i - 1) then Positions(hit, i - 1) + [i - 1]
    else Positions(hit, i - 1)
  }

  /** The entries of the positions below `i` that pass `hit`, in order. */
  function Picked<V>(hit: nat -> bool, entry: nat -> V, i: nat): seq<V> {
    if i == 0 then []
    else if hit(i - 1) then Picked(hit, entry, i - 1) + [entry(i - 1)]
    else Picked(hit, entry, i - 1)
  }

  /** `Picked` holds the entries of exactly the passing `Positions`. */
  lemma {:induction false} PickedGathered<V>(hit: nat -> bool, entry: nat -> V, i: nat)
    ensures Gathered(hit, entry, Picked(hit, entry, i), Positions(hit, i), i)
  {
    if i > 0 {
      PickedGathered(hit, entry, i - 1);
      if hit(i - 1) {
        GatherAppend(hit, entry, Picked(hit, entry, i - 1), Positions(hit, i - 1), i - 1);
      } else {
        GatherSkip(hit, entry, Picked(hit, entry, i - 1), Positions(hit, i - 1), i - 1);
      }
    }
  }

  /** `foundTokens` after the registry's first `i` entries: each token that
      prefixes the trimmed line with its match, in registry order. */
  function Found(tokens: Tokens, line: string, i: nat): OMap<string, Option<Groups>> {
    Picked(HitAt(tokens, line), EntryAt(tokens, line), i)
  }

  /** The registry positions behind `Found`. */
  ghost function Hits(tokens: Tokens, line: string, i: nat): seq<nat> {
    Positions(HitAt(tokens, line), i)
  }

  /** `Found` holds the entries of exactly the matching positions `Hits`, in
      increasing order. */
  lemma FoundGathered(tokens: Tokens, line: string, i: nat)
    ensures Gathered(HitAt(tokens, line), EntryAt(tokens, line), Found(tokens, line, i), Hits(tokens, line, i), i)
  {
    PickedGathered(HitAt(tokens, line), EntryAt(tokens, line), i);
  }

  /** The first longest key among the collected ones is the first longest
      matching token of the whole registry. */
  lemma CollectedBest(tokens: Tokens, line: string, found: OMap<string, Option<Groups>>, b: nat)
    requires found == Found(tokens, line, |tokens|)
    requires b < |found|
    requires forall l :: 0 <= l < |found| ==> |found[l].0| <= |found[b].0|
    requires forall l :: 0 <= l < b ==> |found[l].0| < |found[b].0|
    ensures Chosen(tokens, line).Some? && tokens[Chosen(tokens, line).value].0 == found[b].0
    ensures Classify(tokens, line) == LineInfo(line, Some(found[b].0), Some(found[b].1))
  {
    var from, entry := Hits(tokens, line, |tokens|), EntryAt(tokens, line);
    FoundGathered(tokens, line, |tokens|);
    var k := from[b];
    assert found[b] == entry(k);
    forall t | 0 <= t < |tokens| && PrefixMatches(line, tokens[t].0)
      ensures |tokens[t].0| <= |tokens[k].0|
      ensures t < k ==> |tokens[t].0| < |tokens[k].0|
    {
      assert HitAt(tokens, line)(t);
      assert t in from;
      var l :| 0 <= l < |from| && from[l] == t;
      assert found[l] == entry(t);
      if t < k {
        assert l < b;
      }
    }
    assert IsFirstLongest(tokens, line, k);
    FirstLongestUnique(tokens, line, k, Chosen(tokens, line).value);
  }

  /** With nothing collected, no token prefixes the line. */
  lemma CollectedNone(tokens: Tokens, line: string)
    requires Found(tokens, line, |tokens|) == []
    ensures Classify(tokens, line) == LineInfo(line, None, None)
  {
    FoundGathered(tokens, line, |tokens|);
    forall t | 0 <= t < |tokens| ensures !PrefixMatches(line, tokens[t].0) {
      assert HitAt(tokens, line)(t) == PrefixMatches(line, tokens[t].0);
    }
  }

  /** The head of the keys of `found` after their stable sort by decreasing
      length: the position of the first key of greatest length, None when
      there is no key. */
  method SortedHead<V>(found: OMap<string, V>) returns (best: Option<nat>)
    ensures best.None? <==> found == []
    ensures best.Some? ==> best.value < |found|
    ensures best.Some? ==> forall l :: 0 <= l < |found| ==> |found[l].0| <= |found[best.value].0|
    ensures best.Some? ==> forall l :: 0 <= l < best.value ==> |found[l].0| < |found[best.value].0|
  {
    best := None;
    var j := 0;
    while j < |found|
      invariant 0 <= j <= |found|
      invariant best.None? <==> j == 0
      invariant best.Some? ==> best.value < j
      invariant best.Some? ==> forall l :: 0 <= l < j ==> |found[l].0| <= |found[best.value].0|
      invariant best.Some? ==> forall l :: 0 <= l < best.value ==> |found[l].0| < |found[best.value].0|
    {
      if best.None? || |found[j].0| > |found[best.value].0| {
        best := Some(j);
      }
      j := j + 1;
    }
  }

  /** A position that passes the test carries a key new to what was picked
      before it, when the keys of passing positions are distinct. */
  lemma PickedFresh<K, V>(hit: nat -> bool, entry: nat -> (K, V), i: nat)
    requires forall j, l :: 0 <= j < l <= i && hit(j) && hit(l) ==> entry(j).0 != entry(l).0
    requires hit(i)
    ensures forall j :: 0 <= j < |Picked(hit, entry, i)| ==> Picked(hit, entry, i)[j].0 != entry(i).0
  {
    var found, from := Picked(hit, entry, i), Positions(hit, i);
    PickedGathered(hit, entry, i);
    forall j | 0 <= j < |found| ensures found[j].0 != entry(i).0 {
      assert found[j] == entry(from[j]) && from[j] < i && hit(from[j]);
    }
  }

  /** The `forEach` of `parseLine` over positions `0..n`: each position that
      passes `hit` is `set` in the map with its entry. */
  method SetEach<K(==), V>(hit: nat -> bool, entry: nat -> (K, V), n: nat) returns (found: OMap<K, V>)
    requires forall j, l :: 0 <= j < l < n && hit(j) && hit(l) ==> entry(j).0 != entry(l).0
    ensures found == Picked(hit, entry, n)
  {
    found := [];
    var i := 0;
    while i < n
      invariant 0 <= i <= n
      invariant found == Picked(hit, entry, i)
    {
      if hit(i) {
        PickedFresh(hit, entry, i);
        SetNew(found, entry(i).0, entry(i).1);
        found := Set(found, entry(i).0, entry(i).1);
      }
      i := i + 1;
    }
  }

  /** The `forEach` of `parseLine`: every token that prefixes the trimmed line
      is set in `foundTokens` with its match, in registry order. */
  method CollectTokens(tokens: Tokens, line: string) returns (foundTokens: OMap<string, Option<Groups>>)
    requires DistinctKeys(tokens)
    ensures foundTokens == Found(tokens, line, |tokens|)
  {
    var hit, entry := HitAt(tokens, line), EntryAt(tokens, line);
    forall j, l | 0 <= j < l < |tokens| && hit(j) && hit(l) ensures entry(j).0 != entry(l).0 {
      assert entry(j).0 == tokens[j].0 && entry(l).0 == tokens[l].0;
    }
    foundTokens := SetEach(hit, entry, |tokens|);
  }

  /** The line information `parseLine` builds from the head of the sorted
      keys is the classification of the line. */
  lemma CollectedClassify(tokens: Tokens, line: string, found: OMap<string, Option<Groups>>, best: Option<nat>)
    requires found == Found(tokens, line, |tokens|)
    requires best.None? <==> found == []
    requires best.Some? ==> best.value < |found|
    requires best.Some? ==> forall l :: 0 <= l < |found| ==> |found[l].0| <= |found[best.value].0|
    requires best.Some? ==> forall l :: 0 <= l < best.value ==> |found[l].0| < |found[best.value].0|
    ensures best.None? ==> Classify(tokens, line) == LineInfo(line, None, None)
    ensures best.Some? ==> Classify(tokens, line) == LineInfo(line, Some(found[best.value].0), Some(found[best.value].1))
  {
    if best.None? {
      CollectedNone(tokens, line);
    } else {
      CollectedBest(tokens, line, found, best.value);
    }
  }

  /** `parseLine`: first every token that prefixes the trimmed line is recorded
      with its match in `foundTokens`, in registry order; then the first key of
      greatest length is taken, which is the head of the keys after their
      stable sort by decreasing length. */
  method ParseLine(tokens: Tokens, line: string) returns (info: LineInfo)
    requires DistinctKeys(tokens)
    ensures info == Classify(tokens, line)
  {
    var foundTokens := CollectTokens(tokens, line);
    var best := SortedHead(foundTokens);
    CollectedClassify(tokens, line, foundTokens, best);
    if best.None? {
      info := LineInfo(line, None, None);
    } else {
      info := LineInfo(line, Some(foundTokens[best.value].0), Some(foundTokens[best.value].1));
    }
  }

  // ---------------------------------------------------------------------------
  // Entity construction
  // ---------------------------------------------------------------------------

  /** `parseVersion`: the captured version text. */
  function ParseVersion(obj: VersionRegex): Option<string> {
    obj.version
  }

  /** `parseMessage`: a new message with the captured name, id, length and
      sender, no signals and no description. */
  function ParseMessage(obj: MessageRegex): (m: Message)
    ensures m.name == obj.messageName && m.signals == [] && m.description.None?
  {
    Message(obj.messageName, ParseInt(obj.id), ParseInt(obj.dlc), obj.sendingNode, [], None)
  }

  /** `parseSignal`: a new signal with the captured name, no description and
      no value table (its other fields are described by `SignalFields`). */
  function ParseSignal(obj: SignalRegex): Signal {
    Signal(
      obj.name, obj.plex, ParseInt(obj.startBit), ParseInt(obj.length),
      if ParseInt(obj.endian) == Some(1) then Intel else Motorola,
      obj.signed == "-",
      ParseFloatOf(obj.factor), ParseFloatOf(obj.offset), ParseFloatOf(obj.min), ParseFloatOf(obj.max),
      obj.unit, Split(Trim(obj.receivingNodes), ' '), None, None)
  }

  /** The fields `parseSignal` derives: endianness is Intel exactly when the
      endian field parses to 1, Motorola otherwise; the signal is signed
      exactly when the sign field is `-`; the receiving nodes are the trimmed
      field split on single spaces, none of them containing a space. */
  lemma SignalFields(obj: SignalRegex)
    ensures ParseSignal(obj).name == obj.name
    ensures ParseSignal(obj).description.None? && ParseSignal(obj).valueTable.None?
    ensures ParseSignal(obj).endianness == Intel <==> ParseInt(obj.endian) == Some(1)
    ensures ParseSignal(obj).endianness == Motorola <==> ParseInt(obj.endian) != Some(1)
    ensures ParseSignal(obj).signed <==> obj.signed == "-"
    ensures |ParseSignal(obj).receivingNodes| >= 1
    ensures forall i :: 0 <= i < |ParseSignal(obj).receivingNodes| ==> ' ' !in ParseSignal(obj).receivingNodes[i]
  {
  }

  /** `parseCanNodes`: the trimmed node list split on single spaces. */
  function ParseCanNodes(obj: CanNodesRegex): (nodes: seq<string>)
    ensures |nodes| >= 1 && forall i :: 0 <= i < |nodes| ==> ' ' !in nodes[i]
  {
    Split(Trim(obj.nodes), ' ')
  }

  /** `parseCanConfiguration`: the bus speed as an integer (None is `NaN`). */
  function ParseCanConfiguration(obj: CanConfigRegex): JsInt {
    ParseInt(obj.speed)
  }

  /** `createAttributeType`: `BO_`, `BU_` and `SG_` name the message, node and
      signal kinds; every other code is global. */
  function CreateAttributeType(code: string): (t: AttributeType)
    ensures t == MessageAttribute <==> code == "BO_"
    ensures t == NodeAttribute <==> code == "BU_"
    ensures t == SignalAttribute <==> code == "SG_"
    ensures t == GlobalAttribute <==> code !in {"BO_", "BU_", "SG_"}
  {
    if code == "BO_" then MessageAttribute
    else if code == "BU_" then NodeAttribute
    else if code == "SG_" then SignalAttribute
    else GlobalAttribute
  }

  /** The attribute `generateAttribute` builds. A missing or empty config leaves
      min, max and enumeration null. `INT` reads min and max with `parseInt`
      from the text before and after the config's last space; `FLOAT` reads
      them with `parseFloat` and then, falling through, also sets the
      enumeration; `ENUM` sets the enumeration to the alphanumeric runs of the
      config (null when there are none); any other data type sets nothing. */
  function AttributeOf(name: string, code: string, dataType: string, config: string): Attribute {
    var base := Attribute(name, CreateAttributeType(code), dataType, None, None, None, None);
    if config == "" then base
    else
      var minMax := MinMaxSplit(config);
      var runs := AlnumRuns(config);
      var enumeration := if runs == [] then None else Some(runs);
      if dataType == "INT" then
        base.(min := if minMax.Some? then Some(IntNumber(ParseInt(minMax.value.0))) else None,
              max := if minMax.Some? then Some(IntNumber(ParseInt(minMax.value.1))) else None)
      else if dataType == "FLOAT" then
        base.(min := if minMax.Some? then Some(FloatNumber(ParseFloatOf(minMax.value.0))) else None,
              max := if minMax.Some? then Some(FloatNumber(ParseFloatOf(minMax.value.1))) else None,
              enumeration := enumeration)
      else if dataType == "ENUM" then base.(enumeration := enumeration)
      else base
  }

  /** `generateAttribute`: starts from an attribute with every optional part
      null and fills it in through the source's fall-through switch. */
  method GenerateAttribute(name: string, code: string, dataType: string, config: string) returns (attribute: Attribute)
    ensures attribute == AttributeOf(name, code, dataType, config)
    ensures attribute.name == name && attribute.dataType == dataType && attribute.value.None?
    ensures config == "" ==> attribute.min.None? && attribute.max.None? && attribute.enumeration.None?
    ensures dataType !in {"INT", "FLOAT", "ENUM"} ==> attribute.min.None? && attribute.max.None? && attribute.enumeration.None?
  {
    attribute := Attribute(name, CreateAttributeType(code), dataType, None, None, None, None);
    if config == "" {
      return;
    }
    var minMaxGroups := MinMaxSplit(config);
    var enumMatches := AlnumRuns(config);
    if dataType == "INT" {
      attribute := attribute.(min := if minMaxGroups.Some? then Some(IntNumber(ParseInt(minMaxGroups.value.0))) else None);
      attribute := attribute.(max := if minMaxGroups.Some? then Some(IntNumber(ParseInt(minMaxGroups.value.1))) else None);
    } else if dataType == "FLOAT" || dataType == "ENUM" {
      if dataType == "FLOAT" {
        attribute := attribute.(min := if minMaxGroups.Some? then Some(FloatNumber(ParseFloatOf(minMaxGroups.value.0))) else None);
        attribute := attribute.(max := if minMaxGroups.Some? then Some(FloatNumber(ParseFloatOf(minMaxGroups.value.1))) else None);
      }
      attribute := attribute.(enumeration := if enumMatches != [] then Some(enumMatches) else None);
    }
  }

  // ---------------------------------------------------------------------------
  // Lookups
  // ---------------------------------------------------------------------------

  /** `message.id === id`: NaN equals nothing, not even NaN. */
  predicate SameNumber(a: JsInt, b: JsInt) {
    a.Some? && b.Some? && a.value == b.value
  }

  /** The position of the first message at or after position `i`, in
      insertion order, whose id is `id`. */
  function FirstByIdFrom(messages: OMap<string, Message>, id: JsInt, i: nat): (r: Option<nat>)
    ensures r.Some? ==> i <= r.value < |messages| && SameNumber(messages[r.value].1.id, id)
    ensures r.Some? ==> forall j :: i <= j < r.value ==> !SameNumber(messages[j].1.id, id)
    ensures r.None? <==> forall j :: i <= j < |messages| ==> !SameNumber(messages[j].1.id, id)
    decreases |messages| - i
  {
    if i >= |messages| then None
    else if SameNumber(messages[i].1.id, id) then Some(i)
    else FirstByIdFrom(messages, id, i + 1)
  }

  /** The position of the first message, in insertion order, whose id is `id`. */
  function FirstById(messages: OMap<string, Message>, id: JsInt): (r: Option<nat>)
    ensures r.Some? ==> r.value < |messages| && SameNumber(messages[r.value].1.id, id)
    ensures r.Some? ==> forall j :: 0 <= j < r.value ==> !SameNumber(messages[j].1.id, id)
    ensures r.None? <==> forall j :: 0 <= j < |messages| ==> !SameNumber(messages[j].1.id, id)
  {
    FirstByIdFrom(messages, id, 0)
  }

  /** `getMessageByIdFromData`: walks the messages in insertion order and
      stops at the first whose id is `id`. It gives the message's position
      (the model's handle on the object the source returns); None is `undefined`. */
  method GetMessageByIdFromData(data: DbcData, id: JsInt) returns (r: Option<nat>)
    ensures r == FirstById(data.messages, id)
  {
    var messages := data.messages;
    var i := 0;
    while i < |messages|
      invariant 0 <= i <= |messages|
      invariant FirstByIdFrom(messages, id, i) == FirstByIdFrom(messages, id, 0)
    {
      if SameNumber(messages[i].1.id, id) {
        return Some(i);
      }
      i := i + 1;
    }
    return None;
  }

  /** `getSignalByNameFromMsg`: the signal filed under `name`, None for `undefined`. */
  function GetSignalByNameFromMsg(msg: Message, name: string): Option<Signal> {
    Get(msg.signals, name)
  }

  /** `assignToSigValTable`: attaches `table` to the signal named `name`,
      replacing any table it had; a missing signal leaves the message as it is. */
  function AssignToSigValTable(msg: Message, name: string, table: ValueTable): Message {
    match GetSignalByNameFromMsg(msg, name)
    case Some(s) => msg.(signals := Set(msg.signals, name, s.(valueTable := Some(table))))
    case None => msg
  }

  // ---------------------------------------------------------------------------
  // Value descriptions (extractDefinition)
  // ---------------------------------------------------------------------------

  predicate IsValueChar(c: char) {
    IsDigit(c) || c == '-'
  }

  /** The length of the leading run matched by `[0-9-]+`. */
  function LeadingValueChars(s: string): (n: nat)
    ensures n <= |s|
    ensures forall i :: 0 <= i < n ==> IsValueChar(s[i])
    ensures n < |s| ==> !IsValueChar(s[n])
  {
    if s != [] && IsValueChar(s[0]) then 1 + LeadingValueChars(s[1..]) else 0
  }

  /** A label as the description pattern `(?:[^"\\]|\\.)*` reads it: characters
      other than a double quote or a backslash, and backslash escapes of any
      character but a line terminator. An escaped quote `\"` is such a label. */
  predicate LabelText(desc: string)
    decreases |desc|
  {
    if desc == [] then true
    else if desc[0] == '\\' then |desc| >= 2 && !IsLineTerminator(desc[1]) && LabelText(desc[2..])
    else desc[0] != '"' && LabelText(desc[1..])
  }

  /** Scans `(?:[^"\\]|\\.)*"`: the position of the quote that closes a label,
      stepping over each backslash together with the character after it (a
      line terminator cannot follow a backslash). The position found is the
      first quote with a label before it; None means no quote closes a label. */
  function ClosingQuote(s: string): (r: Option<nat>)
    ensures r.Some? ==> r.value < |s| && s[r.value] == '"' && LabelText(s[..r.value])
    ensures r.Some? ==> forall k :: 0 <= k < r.value && s[k] == '"' ==> !LabelText(s[..k])
    ensures r.None? ==> forall k :: 0 <= k < |s| && s[k] == '"' ==> !LabelText(s[..k])
    decreases |s|
  {
    if s == [] then None
    else if s[0] == '"' then
      assert s[..0] == [];
      Some(0)
    else if s[0] == '\\' then
      LabelPrefixAfterEscape(s);
      if |s| >= 2 && !IsLineTerminator(s[1]) then
        var r := ClosingQuote(s[2..]);
        if r.None? then None else Some(r.value + 2)
      else None
    else
      LabelPrefixAfterChar(s);
      var r := ClosingQuote(s[1..]);
      if r.None? then None else Some(r.value + 1)
  }

  /** A prefix starting with a backslash is a label exactly when the escape is
      allowed and what follows it is a label. */
  lemma LabelPrefixAfterEscape(s: string)
    requires |s| >= 1 && s[0] == '\\'
    ensures !LabelText(s[..1])
    ensures forall k :: 2 <= k <= |s| ==>
      (LabelText(s[..k]) <==> !IsLineTerminator(s[1]) && LabelText(s[2..][..k - 2]))
  {
    forall k | 2 <= k <= |s|
      ensures LabelText(s[..k]) <==> !IsLineTerminator(s[1]) && LabelText(s[2..][..k - 2])
    {
      assert s[..k][2..] == s[2..][..k - 2];
    }
  }

  /** A prefix starting with any other character is a label exactly when that
      character is not a quote and what follows it is a label. */
  lemma LabelPrefixAfterChar(s: string)
    requires |s| >= 1 && s[0] != '\\'
    ensures forall k :: 1 <= k <= |s| ==>
      (LabelText(s[..k]) <==> s[0] != '"' && LabelText(s[1..][..k - 1]))
  {
    forall k | 1 <= k <= |s|
      ensures LabelText(s[..k]) <==> s[0] != '"' && LabelText(s[1..][..k - 1])
    {
      assert s[..k][1..] == s[1..][..k - 1];
    }
  }

  /** One match of `(?<value>[0-9-]+) "(?<description>...)"` starting at the
      head of `s`: the value text, the label as written, and what follows. */
  function DefinitionAt(s: string): (r: Option<(string, string, string)>)
    ensures r.Some? ==> |r.value.2| < |s|
  {
    var n := LeadingValueChars(s);
    if n == 0 || n + 1 >= |s| || s[n] != ' ' || s[n + 1] != '"' then None
    else
      var body := s[n + 2..];
      match ClosingQuote(body)
      case None => None
      case Some(k) => Some((s[..n], body[..k], body[k + 1..]))
  }

  /** `matchAll` of the value-description pattern: at each position try a
      match; on success continue after it, otherwise one character later. */
  function DefinitionMatches(s: string): seq<(string, string)>
    decreases |s|
  {
    if s == [] then []
    else
      match DefinitionAt(s)
      case Some(m) => [(m.0, m.1)] + DefinitionMatches(m.2)
      case None => DefinitionMatches(s[1..])
  }

  /** Each match as a table entry: its label under the integer its value
      text parses to. */
  function DefinitionEntries(matches: seq<(string, string)>): (r: ValueTable)
    ensures |r| == |matches|
  {
    MapKeys(ParseInt, matches)
  }

  /** The value table `extractDefinition` builds from a value-description
      blob: `set(parseInt(value), label)` for each match, in order. */
  function DefinitionTable(definition: string): ValueTable {
    SetAll([], DefinitionEntries(DefinitionMatches(definition)))
  }

  /** `extractDefinition`: walks the matches of the value-description pattern
      and files each label under the integer its value text parses to. */
  method ExtractDefinition(obj: DefinitionRegex) returns (definitions: ValueTable)
    ensures definitions == DefinitionTable(obj.definition)
  {
    definitions := [];
    var rest := obj.definition;
    while rest != []
      invariant SetAll(definitions, DefinitionEntries(DefinitionMatches(rest))) == DefinitionTable(obj.definition)
      decreases |rest|
    {
      match DefinitionAt(rest)
      case Some(m) =>
        ghost var ms := DefinitionMatches(rest);
        assert ms == [(m.0, m.1)] + DefinitionMatches(m.2);
        assert ms[1..] == DefinitionMatches(m.2);
        definitions := Set(definitions, ParseInt(m.0), m.1);
        rest := m.2;
      case None =>
        rest := rest[1..];
    }
  }

  // ---------------------------------------------------------------------------
  // The per-token transition (parseLineFromBaseToken)
  // ---------------------------------------------------------------------------

  /** `SG_`: the signal is set, by name, in the message whose key is last in
      insertion order; with no messages nothing changes. */
  function AddSignalToLast(messages: OMap<string, Message>, name: string, s: Signal): OMap<string, Message> {
    if messages == [] then messages
    else
      var n := |messages| - 1;
      var m := messages[n].1;
      messages[n := (messages[n].0, m.(signals := Set(m.signals, name, s)))]
  }

  /** `CM_ BO_`: the comment goes to the first message with the id, if any. */
  function CommentMessage(messages: OMap<string, Message>, id: JsInt, comment: Option<string>): OMap<string, Message> {
    match FirstById(messages, id)
    case None => messages
    case Some(i) => messages[i := (messages[i].0, messages[i].1.(description := comment))]
  }

  /** `CM_ SG_`: the comment goes to the named signal of the first message
      with the id, if both exist. */
  function CommentSignal(messages: OMap<string, Message>, id: JsInt, name: string, comment: Option<string>): OMap<string, Message> {
    match FirstById(messages, id)
    case None => messages
    case Some(i) =>
      var m := messages[i].1;
      match GetSignalByNameFromMsg(m, name)
      case None => messages
      case Some(s) => messages[i := (messages[i].0, m.(signals := Set(m.signals, name, s.(description := comment))))]
  }

  /** `VAL_`: the table goes to the named signal of the first message with the id. */
  function AssignValueTable(messages: OMap<string, Message>, id: JsInt, name: string, table: ValueTable): OMap<string, Message> {
    match FirstById(messages, id)
    case None => messages
    case Some(i) => messages[i := (messages[i].0, AssignToSigValTable(messages[i].1, name, table))]
  }

  /** `BA_DEF_DEF_`: a known attribute's value becomes the data with every
      double quote removed, or the empty string when there is no data; an
      empty or unknown name changes nothing. */
  function SetAttributeDefault(attributes: Attributes, name: string, data: string): Attributes {
    if name == "" then attributes
    else
      match Get(attributes, name)
      case None => attributes
      case Some(a) =>
        var text := if data != "" then RemoveAll(data, '"') else "";
        Set(attributes, name, a.(value := Some(StringValue(text))))
  }

  /** The cases of the switch in `parseLineFromBaseToken`, one per token it
      acts on. */
  datatype TokenCase =
    | VersionCase      // VERSION
    | MessageCase      // BO_
    | SignalCase       // SG_
    | NodesCase        // BU_
    | BusCase          // BS_
    | CommentCase      // CM_
    | NodeCommentCase  // CM_ BU_
    | MessageCommentCase  // CM_ BO_
    | SignalCommentCase   // CM_ SG_
    | ValueTableCase   // VAL_TABLE_
    | ValueCase        // VAL_
    | AttributeDefCase // BA_DEF_
    | AttributeDefaultCase  // BA_DEF_DEF_

  /** The case label a token name selects; None is the `default` branch. */
  function CaseOf(token: string): Option<TokenCase> {
    if token == "VERSION" then Some(VersionCase)
    else if token == "BO_" then Some(MessageCase)
    else if token == "SG_" then Some(SignalCase)
    else if token == "BU_" then Some(NodesCase)
    else if token == "BS_" then Some(BusCase)
    else if token == "CM_" then Some(CommentCase)
    else if token == "CM_ BU_" then Some(NodeCommentCase)
    else if token == "CM_ BO_" then Some(MessageCommentCase)
    else if token == "CM_ SG_" then Some(SignalCommentCase)
    else if token == "VAL_TABLE_" then Some(ValueTableCase)
    else if token == "VAL_" then Some(ValueCase)
    else if token == "BA_DEF_" then Some(AttributeDefCase)
    else if token == "BA_DEF_DEF_" then Some(AttributeDefaultCase)
    else None
  }

  /** `BO_`: the message is set under its name (a redeclared name keeps its
      place in the map and loses its signals). */
  function MessageLine(g: Groups, d: DbcData): DbcData {
    d.(messages := Set(d.messages, Group(g, "messageName"), ParseMessage(MessageGroups(g))))
  }

  /** `SG_`: the signal goes to the message last in insertion order. */
  function SignalLine(g: Groups, d: DbcData): DbcData {
    d.(messages := AddSignalToLast(d.messages, Group(g, "name"), ParseSignal(SignalGroups(g))))
  }

  /** `CM_ BO_`: a message comment. */
  function MessageCommentLine(g: Groups, d: DbcData): DbcData {
    d.(messages := CommentMessage(d.messages, ParseInt(Group(g, "id")), OptGroup(g, "comment")))
  }

  /** `CM_ SG_`: a signal comment. */
  function SignalCommentLine(g: Groups, d: DbcData): DbcData {
    d.(messages := CommentSignal(d.messages, ParseInt(Group(g, "id")), Group(g, "name"), OptGroup(g, "comment")))
  }

  /** `VAL_TABLE_`: a named value table, stored only when the database has a
      value-table map (`valueTables` is `null` otherwise). */
  function ValueTableLine(g: Groups, d: DbcData): DbcData {
    var definitions := DefinitionTable(DefinitionGroups(g).definition);
    if d.valueTables.Some? then d.(valueTables := Some(Set(d.valueTables.value, Group(g, "name"), definitions)))
    else d
  }

  /** `VAL_`: a value table attached to one signal of the message with the id. */
  function ValueLine(g: Groups, d: DbcData): DbcData {
    var definition := DefinitionTable(DefinitionGroups(g).definition);
    d.(messages := AssignValueTable(d.messages, ParseInt(Group(g, "id")), Group(g, "name"), definition))
  }

  /** `BA_DEF_`: an attribute definition, set under its name. */
  function AttributeDefinitionLine(g: Groups, d: DbcData): DbcData {
    var name := Group(g, "name");
    d.(attributes := Set(d.attributes, name, AttributeOf(name, Group(g, "type"), Group(g, "dataType"), Group(g, "config"))))
  }

  /** `BA_DEF_DEF_`: an attribute default value. */
  function AttributeDefaultLine(g: Groups, d: DbcData): DbcData {
    d.(attributes := SetAttributeDefault(d.attributes, Group(g, "name"), Group(g, "data")))
  }

  /** The effect of one case of the switch with the line's captured groups. */
  function ApplyCase(c: TokenCase, g: Groups, d: DbcData): DbcData {
    match c
    case VersionCase => d.(version := ParseVersion(VersionGroups(g)))
    case MessageCase => MessageLine(g, d)
    case SignalCase => SignalLine(g, d)
    case NodesCase => d.(canNodes := ParseCanNodes(CanNodesGroups(g)))
    case BusCase => d.(busConfiguration := Some(ParseCanConfiguration(CanConfigGroups(g))))
    case CommentCase => d.(description := OptGroup(g, "comment"))
    case NodeCommentCase => d
    case MessageCommentCase => MessageCommentLine(g, d)
    case SignalCommentCase => SignalCommentLine(g, d)
    case ValueTableCase => ValueTableLine(g, d)
    case ValueCase => ValueLine(g, d)
    case AttributeDefCase => AttributeDefinitionLine(g, d)
    case AttributeDefaultCase => AttributeDefaultLine(g, d)
  }

  /** The effect of one recognised token with its captured groups: a token no
      case names changes nothing. */
  function ApplyToken(token: string, g: Groups, d: DbcData): DbcData {
    match CaseOf(token)
    case Some(c) => ApplyCase(c, g, d)
    case None => d
  }

  /** `parseLineFromBaseToken`: a line without a token or whose pattern failed
      leaves the database as it is (reading `.groups` throws and the catch
      returns the data); otherwise the token's effect is applied. */
  function Apply(info: LineInfo, d: DbcData): DbcData {
    match info.regexMatch
    case Some(Some(g)) =>
      (match info.baseToken
       case Some(token) => ApplyToken(token, g, d)
       case None => d)
    case _ => d
  }

  /** A whole parse: every line classified and applied, left to right. */
  function ParseAll(tokens: Tokens, lines: seq<string>, d: DbcData): DbcData
    decreases |lines|
  {
    if lines == [] then d else ParseAll(tokens, lines[1..], Apply(Classify(tokens, lines[0]), d))
  }
}
