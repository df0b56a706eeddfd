/** The first DBC line engine (src/dbc/dbc.ts:87-173): `basicTokenization`
    picks a token for a line and `addToDataTable` updates a smaller database
    in place. It differs from the current engine (module Parser) in which
    token a line gets, in what a signal keeps, and in its `BU_` case, which
    falls through into `BS_`. */
module LegacyDbc {
  import opened Wrappers
  import opened JsMap
  import opened JsText
  import opened DbcTypes
  import Parser

  /** The signal record of src/dbc/dbc.ts:5-19 as the code fills it: endianness
      and sign keep the captured text, factor, offset, min and max go through
      `parseInt`, and the receiving nodes are the raw group the code reads
      (None for `undefined`). */
  datatype LegacySignal = LegacySignal(
    name: string,
    multiplex: Option<string>,
    startBit: JsInt,
    length: JsInt,
    endianness: string,
    signed: string,
    factor: JsInt,
    offset: JsInt,
    min: JsInt,
    max: JsInt,
    unit: string,
    receivingNodes: Option<string>,
    description: Option<string>)

  datatype LegacyMessage = LegacyMessage(
    name: string,
    id: JsInt,
    dlc: JsInt,
    sendingNode: Option<string>,
    signals: OMap<string, LegacySignal>,
    description: Option<string>)

  /** The database of src/dbc/dbc.ts:30-37: it has a namespace list and no
      value tables or attributes. */
  datatype LegacyData = LegacyData(
    version: Option<string>,
    messages: OMap<string, LegacyMessage>,
    description: Option<string>,
    namespace: seq<string>,
    busConfiguration: Option<JsInt>,
    canNodes: seq<string>)

  /** The database the constructor and `load` start from. */
  function EmptyData(): (d: LegacyData)
    ensures d.messages == [] && d.canNodes == [] && d.namespace == []
    ensures d.version.None? && d.description.None? && d.busConfiguration.None?
  {
    LegacyData(None, [], None, [], None, [])
  }

  // ---------------------------------------------------------------------------
  // basicTokenization
  // ---------------------------------------------------------------------------

  /** A token matches a line that starts with it; `SG_` also matches an
      indented line, so for `SG_` the line is read without its indentation. */
  predicate LegacyMatches(line: string, token: string) {
    StartsWith(if token == "SG_" then TrimStart(line) else line, token)
  }

  /** The test as the code writes it: the line starts with the token, or the
      token is `SG_` and the line without its indentation starts with it. */
  lemma LegacyMatchesAsWritten(line: string, token: string)
    ensures LegacyMatches(line, token) <==> StartsWith(line, token) || (StartsWith(TrimStart(line), token) && token == "SG_")
  {
    if token == "SG_" && StartsWith(line, token) {
      assert line[0] == line[..3][0] == 'S';
      assert TrimStart(line) == line;
    }
  }

  /** Among the registry's first `n` positions, `i` is the last whose token matches. */
  ghost predicate IsLastMatchIn(tokens: Tokens, line: string, n: nat, i: nat) {
    && i < n <= |tokens|
    && LegacyMatches(line, tokens[i].0)
    && forall j :: i < j < n ==> !LegacyMatches(line, tokens[j].0)
  }

  /** The last of the registry's first `n` positions whose token matches:
      `forEach` visits every key and each match overwrites the one before (the
      `return` only leaves the callback). */
  function LastMatchIn(tokens: Tokens, line: string, n: nat): (r: Option<nat>)
    requires n <= |tokens|
    ensures r.Some? ==> IsLastMatchIn(tokens, line, n, r.value)
    ensures r.None? <==> forall j :: 0 <= j < n ==> !LegacyMatches(line, tokens[j].0)
    decreases n
  {
    if n == 0 then None
    else if LegacyMatches(line, tokens[n - 1].0) then Some(n - 1)
    else LastMatchIn(tokens, line, n - 1)
  }

  /** The last registry position whose token matches. */
  function LastMatch(tokens: Tokens, line: string): (r: Option<nat>)
    ensures r.Some? ==> r.value < |tokens| && LegacyMatches(line, tokens[r.value].0)
    ensures r.Some? ==> forall j :: r.value < j < |tokens| ==> !LegacyMatches(line, tokens[j].0)
    ensures r.None? <==> forall j :: 0 <= j < |tokens| ==> !LegacyMatches(line, tokens[j].0)
  {
    LastMatchIn(tokens, line, |tokens|)
  }

  /** What `basicTokenization` has found after visiting the first `n` keys. */
  function ClassifyIn(tokens: Tokens, line: string, n: nat): Parser.LineInfo
    requires n <= |tokens|
  {
    match LastMatchIn(tokens, line, n)
    case None => Parser.LineInfo(line, None, None)
    case Some(i) => Parser.LineInfo(line, Some(tokens[i].0), Some(tokens[i].1.dataFormat(line)))
  }

  /** What `basicTokenization` returns for `line`. */
  function LegacyClassify(tokens: Tokens, line: string): Parser.LineInfo {
    ClassifyIn(tokens, line, |tokens|)
  }

  /** `basicTokenization`: visits the registry keys in order and keeps the
      last token that matches, with its pattern applied to the line. */
  method BasicTokenization(line: string, tokens: Tokens) returns (info: Parser.LineInfo)
    ensures info == LegacyClassify(tokens, line)
    ensures info.line == line
    ensures info.baseToken.Some? <==> exists j :: 0 <= j < |tokens| && LegacyMatches(line, tokens[j].0)
  {
    var foundToken: Option<string> := None;
    var messageTokens: Option<Option<Groups>> := None;
    var i := 0;
    while i < |tokens|
      invariant 0 <= i <= |tokens|
      invariant Parser.LineInfo(line, foundToken, messageTokens) == ClassifyIn(tokens, line, i)
    {
      var token := tokens[i].0;
      LegacyMatchesAsWritten(line, token);
      if StartsWith(line, token) {
        foundToken := Some(token);
        messageTokens := Some(tokens[i].1.dataFormat(line));
      } else if StartsWith(TrimStart(line), token) && token == "SG_" {
        foundToken := Some(token);
        messageTokens := Some(tokens[i].1.dataFormat(line));
      }
      i := i + 1;
    }
    info := Parser.LineInfo(line, foundToken, messageTokens);
  }

  // ---------------------------------------------------------------------------
  // addToDataTable
  // ---------------------------------------------------------------------------

  /** The switch's labels that do something. */
  datatype LegacyCase = VersionCase | MessageCase | SignalCase | NodesCase | BusCase

  function LegacyCaseOf(token: string): Option<LegacyCase> {
    if token == "VERSION" then Some(VersionCase)
    else if token == "BO_" then Some(MessageCase)
    else if token == "SG_" then Some(SignalCase)
    else if token == "BU_" then Some(NodesCase)
    else if token == "BS_" then Some(BusCase)
    else None
  }

  /** `BO_`: a message without signals, set under its name. */
  function MessageOf(g: Groups): (m: LegacyMessage)
    ensures m.name == Group(g, "messageName") && m.signals == [] && m.description.None?
  {
    LegacyMessage(Group(g, "messageName"), ParseInt(Group(g, "id")), ParseInt(Group(g, "dlc")),
      OptGroup(g, "sendingNode"), [], None)
  }

  /** `SG_`: the signal as the code builds it. The receiving nodes come from
      the group `recevingNodes`, spelt without the `i`. */
  function SignalOf(g: Groups): LegacySignal {
    LegacySignal(
      Group(g, "name"), OptGroup(g, "plex"), ParseInt(Group(g, "startBit")), ParseInt(Group(g, "length")),
      Group(g, "endian"), Group(g, "signed"),
      ParseInt(Group(g, "factor")), ParseInt(Group(g, "offset")), ParseInt(Group(g, "min")), ParseInt(Group(g, "max")),
      Group(g, "unit"), OptGroup(g, "recevingNodes"), None)
  }

  /** The signal set, by name, in the message whose key is last; with no
      messages `has(undefined)` is false and nothing changes. */
  function AddToLast(messages: OMap<string, LegacyMessage>, name: string, s: LegacySignal): OMap<string, LegacyMessage> {
    if messages == [] then messages
    else
      var n := |messages| - 1;
      var m := messages[n].1;
      messages[n := (messages[n].0, m.(signals := Set(m.signals, name, s)))]
  }

  /** `BU_` sets the node list and, falling through into `BS_`, also the bus
      speed, read from the same line's groups. */
  function NodesLine(g: Groups, d: LegacyData): LegacyData {
    d.(canNodes := Split(Trim(Group(g, "nodes")), ' '), busConfiguration := Some(ParseInt(Group(g, "speed"))))
  }

  function SignalLine(g: Groups, d: LegacyData): LegacyData {
    d.(messages := AddToLast(d.messages, Group(g, "name"), SignalOf(g)))
  }

  function MessageLine(g: Groups, d: LegacyData): LegacyData {
    d.(messages := Set(d.messages, Group(g, "messageName"), MessageOf(g)))
  }

  function VersionLine(g: Groups, d: LegacyData): LegacyData {
    d.(version := OptGroup(g, "version"))
  }

  function BusLine(g: Groups, d: LegacyData): LegacyData {
    d.(busConfiguration := Some(ParseInt(Group(g, "speed"))))
  }

  function ApplyLegacyCase(c: LegacyCase, g: Groups, d: LegacyData): LegacyData {
    match c
    case VersionCase => VersionLine(g, d)
    case MessageCase => MessageLine(g, d)
    case SignalCase => SignalLine(g, d)
    case NodesCase => NodesLine(g, d)
    case BusCase => BusLine(g, d)
  }

  /** `addToDataTable`: a line without a token, or whose pattern failed
      (reading `.groups` of `null` throws and the catch returns the data),
      changes nothing; so does every token without a case of its own. */
  function LegacyApply(info: Parser.LineInfo, d: LegacyData): LegacyData {
    match info.baseToken
    case None => d
    case Some(token) =>
      match info.regexMatch
      case Some(Some(g)) =>
        (match LegacyCaseOf(token)
         case Some(c) => ApplyLegacyCase(c, g, d)
         case None => d)
      case _ => d
  }

  /** The loop of `load`: every line tokenized and added, in order. */
  function LegacyParseAll(tokens: Tokens, lines: seq<string>, d: LegacyData): LegacyData
    decreases |lines|
  {
    if lines == [] then d
    else LegacyParseAll(tokens, lines[1..], LegacyApply(LegacyClassify(tokens, lines[0]), d))
  }

  /** Distinct message names, each message filed under its own name, and
      likewise each of its signals. */
  predicate LegacyWellFormed(d: LegacyData) {
    && DistinctKeys(d.messages)
    && forall i :: 0 <= i < |d.messages| ==> LegacyEntryWellFormed(d.messages[i].0, d.messages[i].1)
  }

  predicate LegacyEntryWellFormed(key: string, m: LegacyMessage) {
    && key == m.name
    && DistinctKeys(m.signals)
    && forall i :: 0 <= i < |m.signals| ==> m.signals[i].0 == m.signals[i].1.name
  }

  // ---------------------------------------------------------------------------
  // The database object, updated in place
  // ---------------------------------------------------------------------------

  class LegacyTable {
    var version: Option<string>
    var messages: OMap<string, LegacyMessage>
    var description: Option<string>
    var namespace: seq<string>
    var busConfiguration: Option<JsInt>
    var canNodes: seq<string>

    function Value(): LegacyData
      reads this
    {
      LegacyData(version, messages, description, namespace, busConfiguration, canNodes)
    }

    /** The data a new `Dbc` holds: everything null or empty. */
    constructor ()
      ensures Value() == EmptyData()
    {
      version := None;
      messages := [];
      description := None;
      namespace := [];
      busConfiguration := None;
      canNodes := [];
    }
  }

  /** `addToDataTable`: applies one tokenized line to `data` in place. */
  method AddToDataTable(info: Parser.LineInfo, data: LegacyTable)
    modifies data
    ensures data.Value() == LegacyApply(info, old(data.Value()))
  {
    if info.baseToken.None? {
      return;
    }
    if !(info.regexMatch.Some? && info.regexMatch.value.Some?) {
      return;
    }
    var groups := info.regexMatch.value.value;
    match LegacyCaseOf(info.baseToken.value)
    case None =>
    case Some(VersionCase) =>
      data.version := OptGroup(groups, "version");
      assert data.Value() == VersionLine(groups, old(data.Value()));
    case Some(MessageCase) =>
      SetMessage(groups, data);
    case Some(SignalCase) =>
      AddSignalToLastMessage(groups, data);
    case Some(NodesCase) =>
      SetNodesAndSpeed(groups, data);
    case Some(BusCase) =>
      data.busConfiguration := Some(ParseInt(Group(groups, "speed")));
      assert data.Value() == BusLine(groups, old(data.Value()));
  }

  /** The `BO_` case of `addToDataTable`. */
  method SetMessage(groups: Groups, data: LegacyTable)
    modifies data
    ensures data.Value() == MessageLine(groups, old(data.Value()))
  {
    data.messages := Set(data.messages, Group(groups, "messageName"), MessageOf(groups));
  }

  /** The `BU_` case of `addToDataTable`, with its fall-through into `BS_`. */
  method SetNodesAndSpeed(groups: Groups, data: LegacyTable)
    modifies data
    ensures data.Value() == NodesLine(groups, old(data.Value()))
  {
    data.canNodes := Split(Trim(Group(groups, "nodes")), ' ');
    data.busConfiguration := Some(ParseInt(Group(groups, "speed")));
  }

  /** The `SG_` case of `addToDataTable`. */
  method AddSignalToLastMessage(groups: Groups, data: LegacyTable)
    modifies data
    ensures data.Value() == SignalLine(groups, old(data.Value()))
  {
    if |data.messages| > 0 {
      var lastKey := data.messages[|data.messages| - 1].0;
      var msg := data.messages[|data.messages| - 1].1;
      var signal := SignalOf(groups);
      msg := msg.(signals := Set(msg.signals, Group(groups, "name"), signal));
      data.messages := data.messages[|data.messages| - 1 := (lastKey, msg)];
    }
  }

  /** The loop of `load` over lines already read: each line tokenized and
      added in order. */
  method LoadLines(tokens: Tokens, lines: seq<string>) returns (data: LegacyTable)
    ensures data.Value() == LegacyParseAll(tokens, lines, EmptyData())
  {
    data := new LegacyTable();
    var i := 0;
    while i < |lines|
      invariant 0 <= i <= |lines|
      invariant LegacyParseAll(tokens, lines[i..], data.Value()) == LegacyParseAll(tokens, lines, EmptyData())
    {
      var info := BasicTokenization(lines[i], tokens);
      AddToDataTable(info, data);
      assert lines[i..][1..] == lines[i + 1..];
      i := i + 1;
    }
  }
}
