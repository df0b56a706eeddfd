/** What the first line engine (src/dbc/dbc.ts:87-173) does, and where it
    parts from the current one: which token a line gets, the `BU_`
    fall-through, the integer scale of a signal and the misspelt group name. */
module LegacyProperties {
  import opened Wrappers
  import opened JsMap
  import opened JsText
  import opened DbcTypes
  import Parser
  import opened LegacyDbc
  import opened TransitionProperties

  // ---------------------------------------------------------------------------
  // basicTokenization
  // ---------------------------------------------------------------------------

  /** Only `SG_` is found on an indented line: any other token that does not
      itself start with whitespace must begin the line. */
  lemma IndentedLineOnlySignal(line: string, token: string)
    requires line != [] && IsWhitespace(line[0])
    requires token != [] && !IsWhitespace(token[0])
    requires token != "SG_"
    ensures !LegacyMatches(line, token)
  {
  }

  /** An indented `SG_` line is still found. */
  lemma IndentedSignalFound(ws: string, line: string)
    requires forall i :: 0 <= i < |ws| ==> IsWhitespace(ws[i])
    requires StartsWith(line, "SG_")
    ensures LegacyMatches(ws + line, "SG_")
  {
    TrimStartOfIndented(ws, line);
    assert line != [] && !IsWhitespace(line[0]);
    assert TrimStart(line) == line;
  }

  /** When a longer token is registered before a shorter one that prefixes
      it (`BO_TX_BU_` before `BO_`), a line starting with the longer token is
      given the shorter one, because the last match wins; the current engine
      gives it the longer one. */
  lemma LaterShorterTokenWins(line: string, long: string, short: string, p: Token, q: Token)
    requires |short| < |long| && StartsWith(long, short)
    requires StartsWith(line, long) && !IsWhitespace(line[0])
    ensures LegacyClassify([(long, p), (short, q)], line).baseToken == Some(short)
    ensures Parser.Classify([(long, p), (short, q)], line).baseToken == Some(long)
  {
    var tokens := [(long, p), (short, q)];
    assert line[..|short|] == long[..|short|];
    assert StartsWith(line, short);
    assert TrimStart(line) == line;
    assert Parser.PrefixMatches(line, long) && Parser.PrefixMatches(line, short);
    assert Parser.ChosenIn(tokens, line, 1) == Some(0);
  }

  // ---------------------------------------------------------------------------
  // addToDataTable: which lines change what
  // ---------------------------------------------------------------------------

  /** The five labels with a case of their own, and only those. */
  lemma LegacyCaseLabels()
    ensures LegacyCaseOf("VERSION") == Some(VersionCase)
    ensures LegacyCaseOf("BO_") == Some(MessageCase)
    ensures LegacyCaseOf("SG_") == Some(SignalCase)
    ensures LegacyCaseOf("BU_") == Some(NodesCase)
    ensures LegacyCaseOf("BS_") == Some(BusCase)
  {
    assert "BO_" != "VERSION";
    assert "SG_" != "VERSION" && "SG_" != "BO_";
    assert "BU_" != "VERSION" && "BU_" != "BO_" && "BU_" != "SG_";
    assert "BS_" != "VERSION" && "BS_" != "BO_" && "BS_" != "SG_" && "BS_" != "BU_";
  }

  lemma LegacyOtherTokensIgnored(token: string)
    ensures LegacyCaseOf(token).None? <==> token !in ["VERSION", "BO_", "SG_", "BU_", "BS_"]
  {
  }

  /** A line without a token, whose pattern fails, or whose token has no case. */
  predicate LegacyInert(tokens: Tokens, line: string) {
    match LastMatch(tokens, line)
    case None => true
    case Some(i) => tokens[i].1.dataFormat(line).None? || LegacyCaseOf(tokens[i].0).None?
  }

  lemma LegacyInertLineIsNoOp(tokens: Tokens, line: string, d: LegacyData)
    requires LegacyInert(tokens, line)
    ensures LegacyApply(LegacyClassify(tokens, line), d) == d
  {
  }

  /** A run of inert lines leaves the database as it is. */
  lemma {:induction false} LegacyInertLinesAreNoOps(tokens: Tokens, lines: seq<string>, d: LegacyData)
    requires forall k :: 0 <= k < |lines| ==> LegacyInert(tokens, lines[k])
    ensures LegacyParseAll(tokens, lines, d) == d
    decreases |lines|
  {
    if lines != [] {
      LegacyInertLineIsNoOp(tokens, lines[0], d);
      LegacyInertLinesAreNoOps(tokens, lines[1..], d);
    }
  }

  /** Loading two runs of lines one after the other is loading their concatenation. */
  lemma {:induction false} LegacyParseAllAppend(tokens: Tokens, lines1: seq<string>, lines2: seq<string>, d: LegacyData)
    ensures LegacyParseAll(tokens, lines1 + lines2, d) == LegacyParseAll(tokens, lines2, LegacyParseAll(tokens, lines1, d))
    decreases |lines1|
  {
    if lines1 == [] {
      assert lines1 + lines2 == lines2;
    } else {
      assert (lines1 + lines2)[0] == lines1[0];
      assert (lines1 + lines2)[1..] == lines1[1..] + lines2;
      LegacyParseAllAppend(tokens, lines1[1..], lines2, LegacyApply(LegacyClassify(tokens, lines1[0]), d));
    }
  }

  // ---------------------------------------------------------------------------
  // BU_ and BS_
  // ---------------------------------------------------------------------------

  /** `BU_` has no `break`: it sets the node list and then the bus speed from
      the same line, where the node pattern captures no speed, so the speed
      becomes `NaN`. The current engine leaves the speed alone. */
  lemma NodesFallThrough(g: Groups, d: LegacyData, d': DbcData)
    ensures NodesLine(g, d).busConfiguration == Some(ParseInt(Group(g, "speed")))
    ensures "speed" !in g ==> NodesLine(g, d).busConfiguration == Some(None)
    ensures NodesLine(g, d).(canNodes := d.canNodes, busConfiguration := d.busConfiguration) == d
    ensures Parser.ApplyCase(Parser.NodesCase, g, d').busConfiguration == d'.busConfiguration
  {
    if "speed" !in g {
      assert Group(g, "speed") == "";
      assert ParseInt("") == None;
    }
    CurrentNodesKeepBus(g, d');
  }

  lemma CurrentNodesKeepBus(g: Groups, d: DbcData)
    ensures Parser.ApplyCase(Parser.NodesCase, g, d).busConfiguration == d.busConfiguration
  {
  }

  /** The node list a `BU_` line gives: the space-separated names it lists,
      as in the current engine. */
  lemma LegacyNodeList(g: Groups, d: LegacyData, names: seq<string>)
    requires |names| >= 1
    requires forall i, j :: 0 <= i < |names| && 0 <= j < |names[i]| ==> !IsWhitespace(names[i][j])
    requires forall i :: 0 <= i < |names| ==> names[i] != []
    requires Group(g, "nodes") == Join(names, ' ')
    ensures NodesLine(g, d).canNodes == names
  {
    WordsRoundTrip(names);
  }

  /** Of two `VERSION`, `BU_` or `BS_` lines the second decides. */
  lemma LegacyLastWriteWins(c: LegacyCase, g1: Groups, g2: Groups, d: LegacyData)
    requires c.VersionCase? || c.NodesCase? || c.BusCase?
    ensures ApplyLegacyCase(c, g2, ApplyLegacyCase(c, g1, d)) == ApplyLegacyCase(c, g2, d)
  {
  }

  // ---------------------------------------------------------------------------
  // SG_: what a signal keeps
  // ---------------------------------------------------------------------------

  /** The scale goes through `parseInt`, so a fractional factor such as
      `0.25` or `12.5` keeps only its integer part. */
  lemma FactorTruncated(g: Groups, whole: string, fraction: string)
    requires |whole| >= 1 && forall i :: 0 <= i < |whole| ==> IsDigit(whole[i])
    requires Group(g, "factor") == whole + "." + fraction
    ensures SignalOf(g).factor == Some(DecimalValue(whole))
  {
    ParseIntOfFraction(whole, fraction);
  }

  /** `parseInt` of a decimal fraction is its integer part. */
  lemma ParseIntOfFraction(whole: string, fraction: string)
    requires |whole| >= 1 && forall i :: 0 <= i < |whole| ==> IsDigit(whole[i])
    ensures ParseInt(whole + "." + fraction) == Some(DecimalValue(whole))
  {
    assert whole + "." + fraction == whole + ("." + fraction);
    ParseIntIgnoresTail(whole, "." + fraction);
  }

  /** Endianness and sign keep the captured text: the field is `"1"` or
      `"0"`, `"+"` or `"-"`, not the enumeration and flag of the current
      engine. */
  lemma RawEndiannessAndSign(g: Groups)
    ensures SignalOf(g).endianness == Group(g, "endian")
    ensures SignalOf(g).signed == Group(g, "signed")
    ensures SignalOf(g).name == Group(g, "name") && SignalOf(g).description.None?
  {
  }

  /** The receiving nodes are read from the group `recevingNodes`: they are
      present exactly when a group of that spelling is, whatever a group
      named `receivingNodes` holds. */
  lemma ReceivingNodesMisspelt(g: Groups)
    ensures SignalOf(g).receivingNodes.Some? <==> "recevingNodes" in g
    ensures "recevingNodes" in g ==> SignalOf(g).receivingNodes == Some(g["recevingNodes"])
    ensures SignalOf(g).receivingNodes == SignalOf(g - {"receivingNodes"}).receivingNodes
  {
    var g' := g - {"receivingNodes"};
    assert "recevingNodes" != "receivingNodes";
    assert ("recevingNodes" in g') == ("recevingNodes" in g);
  }

  // ---------------------------------------------------------------------------
  // SG_ and BO_: where signals go
  // ---------------------------------------------------------------------------

  /** `after` is `before` with `s` set, by name, in the message whose key is
      last; nothing else changes. */
  ghost predicate LegacySignalSetInLast(before: OMap<string, LegacyMessage>, after: OMap<string, LegacyMessage>, name: string, s: LegacySignal) {
    && before != []
    && |after| == |before|
    && Keys(after) == Keys(before)
    && (forall j :: 0 <= j < |before| - 1 ==> after[j] == before[j])
    && LastOf(after) == LastOf(before).(signals := LastOf(after).signals)
    && Get(LastOf(after).signals, name) == Some(s)
    && (forall k :: k != name ==> Get(LastOf(after).signals, k) == Get(LastOf(before).signals, k))
  }

  function LastOf(messages: OMap<string, LegacyMessage>): LegacyMessage
    requires messages != []
  {
    messages[|messages| - 1].1
  }

  /** `SG_` with a message declared sets the signal in the last message and
      changes no other field. */
  lemma LegacySignalDeclaration(g: Groups, d: LegacyData)
    requires d.messages != []
    ensures LegacySignalSetInLast(d.messages, SignalLine(g, d).messages, Group(g, "name"), SignalOf(g))
    ensures SignalLine(g, d).(messages := d.messages) == d
  {
    AddToLastLaws(d.messages, Group(g, "name"), SignalOf(g));
  }

  lemma AddToLastLaws(messages: OMap<string, LegacyMessage>, name: string, s: LegacySignal)
    requires messages != []
    ensures LegacySignalSetInLast(messages, AddToLast(messages, name, s), name, s)
  {
    var n := |messages| - 1;
    var m := messages[n].1;
    ReplaceValue(messages, n, m.(signals := Set(m.signals, name, s)));
    GetSetSame(m.signals, name, s);
    forall k | k != name ensures Get(Set(m.signals, name, s), k) == Get(m.signals, k) {
      GetSetOther(m.signals, name, s, k);
    }
  }

  /** Before any `BO_`, a `SG_` line changes nothing. */
  lemma LegacySignalWithoutMessageIsNoOp(g: Groups, d: LegacyData)
    requires d.messages == []
    ensures SignalLine(g, d) == d
  {
  }

  /** `BO_` files a message without signals under its name, replacing any
      message of that name (and its signals); every other name reads as before.
      A name already present keeps its position, a new name is appended last,
      so the declared message is the last key only when its name is new. */
  lemma LegacyMessageDeclaration(g: Groups, d: LegacyData)
    ensures Get(MessageLine(g, d).messages, Group(g, "messageName")) == Some(MessageOf(g))
    ensures MessageOf(g).signals == [] && MessageOf(g).name == Group(g, "messageName")
    ensures forall k :: k != Group(g, "messageName") ==> Get(MessageLine(g, d).messages, k) == Get(d.messages, k)
    ensures Has(d.messages, Group(g, "messageName")) ==> Keys(MessageLine(g, d).messages) == Keys(d.messages)
    ensures !Has(d.messages, Group(g, "messageName")) ==>
      Keys(MessageLine(g, d).messages) == Keys(d.messages) + [Group(g, "messageName")]
    ensures MessageLine(g, d).(messages := d.messages) == d
  {
    GetSetSame(d.messages, Group(g, "messageName"), MessageOf(g));
    forall k | k != Group(g, "messageName")
      ensures Get(MessageLine(g, d).messages, k) == Get(d.messages, k)
    {
      GetSetOther(d.messages, Group(g, "messageName"), MessageOf(g), k);
    }
    SetKeys(d.messages, Group(g, "messageName"), MessageOf(g));
  }

  // ---------------------------------------------------------------------------
  // The database invariant
  // ---------------------------------------------------------------------------

  /** Every line keeps the database well formed. */
  lemma LegacyApplyPreservesWellFormed(info: Parser.LineInfo, d: LegacyData)
    requires LegacyWellFormed(d)
    ensures LegacyWellFormed(LegacyApply(info, d))
  {
    if info.regexMatch.Some? && info.regexMatch.value.Some? && info.baseToken.Some? {
      var c := LegacyCaseOf(info.baseToken.value);
      if c.Some? {
        LegacyCasePreservesWellFormed(c.value, info.regexMatch.value.value, d);
      }
    }
  }

  lemma LegacyCasePreservesWellFormed(c: LegacyCase, g: Groups, d: LegacyData)
    requires LegacyWellFormed(d)
    ensures LegacyWellFormed(ApplyLegacyCase(c, g, d))
  {
    match c
    case MessageCase => LegacyMessageWellFormed(g, d);
    case SignalCase => LegacySignalWellFormed(g, d);
    case VersionCase =>
    case NodesCase =>
    case BusCase =>
  }

  lemma LegacyMessageWellFormed(g: Groups, d: LegacyData)
    requires LegacyWellFormed(d)
    ensures LegacyWellFormed(MessageLine(g, d))
  {
    var k := Group(g, "messageName");
    var m := MessageOf(g);
    var P := (key, x) => LegacyEntryWellFormed(key, x);
    assert P(k, m);
    assert forall j :: 0 <= j < |d.messages| ==> P(d.messages[j].0, d.messages[j].1);
    SetDistinct(d.messages, k, m);
    SetKeepsAll(d.messages, k, m, P);
  }

  lemma LegacySignalWellFormed(g: Groups, d: LegacyData)
    requires LegacyWellFormed(d)
    ensures LegacyWellFormed(SignalLine(g, d))
  {
    if d.messages != [] {
      var n := |d.messages| - 1;
      var m := d.messages[n].1;
      var s := SignalOf(g);
      assert s.name == Group(g, "name");
      LegacySetSignalInEntry(d.messages[n].0, m, s);
      LegacyReplaceEntry(d, n, m.(signals := Set(m.signals, s.name, s)));
    }
  }

  lemma LegacySetSignalInEntry(key: string, m: LegacyMessage, s: LegacySignal)
    requires LegacyEntryWellFormed(key, m)
    ensures LegacyEntryWellFormed(key, m.(signals := Set(m.signals, s.name, s)))
  {
    var P := (k, x: LegacySignal) => k == x.name;
    assert forall j :: 0 <= j < |m.signals| ==> P(m.signals[j].0, m.signals[j].1);
    SetDistinct(m.signals, s.name, s);
    SetKeepsAll(m.signals, s.name, s, P);
  }

  lemma LegacyReplaceEntry(d: LegacyData, i: nat, m: LegacyMessage)
    requires LegacyWellFormed(d) && i < |d.messages|
    requires LegacyEntryWellFormed(d.messages[i].0, m)
    ensures LegacyWellFormed(d.(messages := d.messages[i := (d.messages[i].0, m)]))
  {
    var ms := d.messages[i := (d.messages[i].0, m)];
    assert forall j :: 0 <= j < |ms| ==> ms[j].0 == d.messages[j].0;
  }

  /** A whole load keeps the database well formed; in particular the one
      `LoadLines` returns is. */
  lemma {:induction false} LegacyParseAllPreservesWellFormed(tokens: Tokens, lines: seq<string>, d: LegacyData)
    requires LegacyWellFormed(d)
    ensures LegacyWellFormed(LegacyParseAll(tokens, lines, d))
    decreases |lines|
  {
    if lines != [] {
      LegacyApplyPreservesWellFormed(LegacyClassify(tokens, lines[0]), d);
      LegacyParseAllPreservesWellFormed(tokens, lines[1..], LegacyApply(LegacyClassify(tokens, lines[0]), d));
    }
  }
}
