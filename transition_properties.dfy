/** What each step of `parseLineFromBaseToken` (src/dbc/parser.ts:67-156) does
    to the database, what it leaves alone, and how steps compose into a parse. */
module TransitionProperties {
  import opened Wrappers
  import opened JsMap
  import opened JsText
  import opened DbcTypes
  import opened Parser
  import opened ParserProperties

  // ---------------------------------------------------------------------------
  // Lines that change nothing, and the parse as a whole
  // ---------------------------------------------------------------------------

  /** A line that no token prefixes, or whose chosen token's pattern fails. */
  predicate Inert(tokens: Tokens, line: string) {
    match Chosen(tokens, line)
    case None => true
    case Some(i) => tokens[i].1.dataFormat(line).None?
  }

  /** Such a line leaves the database as it is: `regexMatch[0].groups` throws
      and the catch hands back `data`. */
  lemma InertLineIsNoOp(tokens: Tokens, line: string, d: DbcData)
    requires Inert(tokens, line)
    ensures Apply(Classify(tokens, line), d) == d
  {
  }

  /** A run of inert lines leaves the database as it is. */
  lemma {:induction false} InertLinesAreNoOps(tokens: Tokens, lines: seq<string>, d: DbcData)
    requires forall k :: 0 <= k < |lines| ==> Inert(tokens, lines[k])
    ensures ParseAll(tokens, lines, d) == d
    decreases |lines|
  {
    if lines != [] {
      InertLineIsNoOp(tokens, lines[0], d);
      InertLinesAreNoOps(tokens, lines[1..], d);
    }
  }

  /** Parsing two runs of lines one after the other is parsing their concatenation. */
  lemma {:induction false} ParseAllAppend(tokens: Tokens, lines1: seq<string>, lines2: seq<string>, d: DbcData)
    ensures ParseAll(tokens, lines1 + lines2, d) == ParseAll(tokens, lines2, ParseAll(tokens, lines1, d))
    decreases |lines1|
  {
    if lines1 == [] {
      assert lines1 + lines2 == lines2;
    } else {
      assert (lines1 + lines2)[0] == lines1[0];
      assert (lines1 + lines2)[1..] == lines1[1..] + lines2;
      ParseAllAppend(tokens, lines1[1..], lines2, Apply(Classify(tokens, lines1[0]), d));
    }
  }

  /** A whole parse keeps the database well formed. */
  lemma {:induction false} ParseAllPreservesWellFormed(tokens: Tokens, lines: seq<string>, d: DbcData)
    requires WellFormed(d)
    ensures WellFormed(ParseAll(tokens, lines, d))
    decreases |lines|
  {
    if lines != [] {
      ApplyPreservesWellFormed(Classify(tokens, lines[0]), d);
      ParseAllPreservesWellFormed(tokens, lines[1..], Apply(Classify(tokens, lines[0]), d));
    }
  }

  /** Indentation does not change which token a line gets, but the pattern
      sees the line with its indentation. */
  lemma IndentationIgnoredByClassification(tokens: Tokens, ws: string, line: string)
    requires forall i :: 0 <= i < |ws| ==> IsWhitespace(ws[i])
    ensures Chosen(tokens, ws + line) == Chosen(tokens, line)
    ensures Classify(tokens, ws + line).baseToken == Classify(tokens, line).baseToken
    ensures Chosen(tokens, line).Some? ==>
      Classify(tokens, ws + line).regexMatch == Some(tokens[Chosen(tokens, line).value].1.dataFormat(ws + line))
  {
    TrimStartOfIndented(ws, line);
    assert forall t :: PrefixMatches(ws + line, t) == PrefixMatches(line, t);
    var a, b := Chosen(tokens, ws + line), Chosen(tokens, line);
    if a.Some? {
      assert IsFirstLongest(tokens, line, a.value);
      FirstLongestUnique(tokens, line, a.value, b.value);
    } else {
      assert b.None?;
    }
  }

  // ---------------------------------------------------------------------------
  // VERSION, BU_, BS_, CM_, CM_ BU_
  // ---------------------------------------------------------------------------

  /** `VERSION`, `BU_`, `BS_` and `CM_` overwrite one field each, so of two
      such lines the later one decides. */
  lemma LastWriteWins(c: TokenCase, g1: Groups, g2: Groups, d: DbcData)
    requires c == VersionCase || c == NodesCase || c == BusCase || c == CommentCase
    ensures ApplyCase(c, g2, ApplyCase(c, g1, d)) == ApplyCase(c, g2, d)
  {
  }

  /** `CM_ BU_` has a case of its own that does nothing. */
  lemma NodeCommentIgnored(g: Groups, d: DbcData)
    ensures ApplyToken("CM_ BU_", g, d) == d
  {
    CaseLabels();
  }

  /** `BS_` sets the bus speed to the integer its speed field writes, and
      changes nothing else. */
  lemma BusSpeed(g: Groups, d: DbcData, speed: int)
    requires Group(g, "speed") == IntToDecimal(speed)
    ensures ApplyCase(BusCase, g, d) == d.(busConfiguration := Some(Some(speed)))
  {
    ParseIntOfDecimal(speed);
    BusCaseSets(g, d, Some(speed));
  }

  lemma BusCaseSets(g: Groups, d: DbcData, speed: JsInt)
    requires ParseInt(Group(g, "speed")) == speed
    ensures ApplyCase(BusCase, g, d) == d.(busConfiguration := Some(speed))
  {
  }

  /** The node list a `BU_` line gives: the space-separated names it lists. */
  lemma NodeListOfNames(g: Groups, d: DbcData, names: seq<string>)
    requires |names| >= 1
    requires forall i, j :: 0 <= i < |names| && 0 <= j < |names[i]| ==> !IsWhitespace(names[i][j])
    requires forall i :: 0 <= i < |names| ==> names[i] != []
    requires Group(g, "nodes") == Join(names, ' ')
    ensures ApplyCase(NodesCase, g, d).canNodes == names
  {
    WordsRoundTrip(names);
  }

  /** The receiving nodes an `SG_` line gives: the space-separated names it lists. */
  lemma ReceivingNodesOfNames(obj: SignalRegex, names: seq<string>)
    requires |names| >= 1
    requires forall i, j :: 0 <= i < |names| && 0 <= j < |names[i]| ==> !IsWhitespace(names[i][j])
    requires forall i :: 0 <= i < |names| ==> names[i] != []
    requires obj.receivingNodes == Join(names, ' ')
    ensures ParseSignal(obj).receivingNodes == names
  {
    WordsRoundTrip(names);
  }

  /** `s.trim().split(' ')` gives back names written with single spaces between them. */
  lemma WordsRoundTrip(names: seq<string>)
    requires |names| >= 1
    requires forall i, j :: 0 <= i < |names| && 0 <= j < |names[i]| ==> !IsWhitespace(names[i][j])
    requires forall i :: 0 <= i < |names| ==> names[i] != []
    ensures Split(Trim(Join(names, ' ')), ' ') == names
  {
    JoinEnds(names, ' ');
    TrimOfTrimmed(Join(names, ' '));
    assert forall i, j :: 0 <= i < |names| && 0 <= j < |names[i]| ==> names[i][j] != ' ';
    SplitJoin(names, ' ');
  }

  /** The first character of a join is the first piece's, the last is the last piece's. */
  lemma {:induction false} JoinEnds(pieces: seq<string>, sep: char)
    requires |pieces| >= 1 && forall i :: 0 <= i < |pieces| ==> pieces[i] != []
    ensures Join(pieces, sep) != []
    ensures Join(pieces, sep)[0] == pieces[0][0]
    ensures Join(pieces, sep)[|Join(pieces, sep)| - 1] == pieces[|pieces| - 1][|pieces[|pieces| - 1]| - 1]
  {
    if |pieces| > 1 {
      JoinEnds(pieces[1..], sep);
    }
  }

  // ---------------------------------------------------------------------------
  // BO_ and SG_
  // ---------------------------------------------------------------------------

  /** `BO_` files a fresh message, without signals, under its name. A name
      already present keeps its position (and loses its signals); a new name
      is appended last. No other message and no other field changes. */
  lemma MessageDeclaration(g: Groups, d: DbcData)
    ensures var r := MessageLine(g, d);
      && Get(r.messages, Group(g, "messageName")) == Some(ParseMessage(MessageGroups(g)))
      && Get(r.messages, Group(g, "messageName")).value.signals == []
      && (forall k :: k != Group(g, "messageName") ==> Get(r.messages, k) == Get(d.messages, k))
      && (Has(d.messages, Group(g, "messageName")) ==> Keys(r.messages) == Keys(d.messages))
      && (!Has(d.messages, Group(g, "messageName")) ==> Keys(r.messages) == Keys(d.messages) + [Group(g, "messageName")])
      && r.(messages := d.messages) == d
  {
    var name, m := Group(g, "messageName"), ParseMessage(MessageGroups(g));
    GetSetSame(d.messages, name, m);
    forall k | k != name ensures Get(Set(d.messages, name, m), k) == Get(d.messages, k) {
      GetSetOther(d.messages, name, m, k);
    }
    SetKeys(d.messages, name, m);
  }

  /** A `BO_` line reads back the name, id, length and sender it was written
      with, as a message with no signals and no description. */
  lemma ParseMessageOfFields(name: string, id: int, dlc: int, sender: Option<string>)
    ensures ParseMessage(MessageRegex(name, IntToDecimal(id), IntToDecimal(dlc), sender)) ==
      Message(name, Some(id), Some(dlc), sender, [], None)
  {
    ParseIntOfDecimal(id);
    ParseIntOfDecimal(dlc);
  }

  /** `after` is `before` with the signal `s` set, by name, in the message
      whose key is last in insertion order: every other message, every other
      signal of that message and the message's own fields are left alone, and
      the keys keep their order. */
  ghost predicate SignalSetInLast(before: OMap<string, Message>, after: OMap<string, Message>, name: string, s: Signal) {
    && before != []
    && |after| == |before|
    && Keys(after) == Keys(before)
    && (forall j :: 0 <= j < |before| - 1 ==> after[j] == before[j])
    && LastMessage(after) == LastMessage(before).(signals := LastMessage(after).signals)
    && Get(LastMessage(after).signals, name) == Some(s)
    && (forall k :: k != name ==> Get(LastMessage(after).signals, k) == Get(LastMessage(before).signals, k))
  }

  /** The message whose key is last in insertion order. */
  function LastMessage(messages: OMap<string, Message>): Message
    requires messages != []
  {
    messages[|messages| - 1].1
  }

  /** `SG_` with at least one message declared sets the parsed signal in the
      last message, and changes no other field of the database. */
  lemma SignalDeclaration(g: Groups, d: DbcData)
    requires d.messages != []
    ensures SignalSetInLast(d.messages, SignalLine(g, d).messages, Group(g, "name"), ParseSignal(SignalGroups(g)))
    ensures SignalLine(g, d).(messages := d.messages) == d
  {
    AddSignalToLastLaws(d.messages, Group(g, "name"), ParseSignal(SignalGroups(g)));
  }

  lemma AddSignalToLastLaws(messages: OMap<string, Message>, name: string, s: Signal)
    requires messages != []
    ensures SignalSetInLast(messages, AddSignalToLast(messages, name, s), name, s)
  {
    var n := |messages| - 1;
    var m := messages[n].1;
    ReplaceValue(messages, n, m.(signals := Set(m.signals, name, s)));
    GetSetSame(m.signals, name, s);
    forall k | k != name ensures Get(Set(m.signals, name, s), k) == Get(m.signals, k) {
      GetSetOther(m.signals, name, s, k);
    }
  }

  /** With no message yet, a `SG_` line changes nothing. */
  lemma SignalWithoutMessageIsNoOp(g: Groups, d: DbcData)
    requires d.messages == []
    ensures SignalLine(g, d) == d
  {
  }

  /** A message declared under a name that is already present, but not
      last, keeps its old position. The next `SG_` line then goes to the
      message that is last, not to the one just declared, and the redeclared
      message is left without signals. */
  lemma RedeclaredMessageDoesNotReceiveSignals(g1: Groups, g2: Groups, d: DbcData)
    requires Has(d.messages, Group(g1, "messageName"))
    requires d.messages[|d.messages| - 1].0 != Group(g1, "messageName")
    ensures Get(SignalLine(g2, MessageLine(g1, d)).messages, Group(g1, "messageName")) == Some(ParseMessage(MessageGroups(g1)))
    ensures SignalSetInLast(MessageLine(g1, d).messages, SignalLine(g2, MessageLine(g1, d)).messages,
      Group(g2, "name"), ParseSignal(SignalGroups(g2)))
    ensures Keys(SignalLine(g2, MessageLine(g1, d)).messages) == Keys(d.messages)
  {
    var d1 := MessageLine(g1, d);
    MessageDeclaration(g1, d);
    RedeclaredThenSignal(d.messages, d1.messages, Group(g1, "messageName"), Group(g2, "name"), ParseSignal(SignalGroups(g2)));
  }

  lemma RedeclaredThenSignal(before: OMap<string, Message>, after: OMap<string, Message>, name: string, signalName: string, s: Signal)
    requires Has(before, name) && before[|before| - 1].0 != name
    requires Keys(after) == Keys(before)
    ensures Get(AddSignalToLast(after, signalName, s), name) == Get(after, name)
    ensures SignalSetInLast(after, AddSignalToLast(after, signalName, s), signalName, s)
    ensures Keys(AddSignalToLast(after, signalName, s)) == Keys(before)
  {
    KeysAgree(after, before);
    AddSignalToLastLaws(after, signalName, s);
    AddSignalToLastElsewhere(after, name, signalName, s);
  }

  /** A message that is not last reads the same after `SG_`. */
  lemma AddSignalToLastElsewhere(messages: OMap<string, Message>, name: string, signalName: string, s: Signal)
    requires messages != [] && messages[|messages| - 1].0 != name
    ensures Get(AddSignalToLast(messages, signalName, s), name) == Get(messages, name)
  {
    var n := |messages| - 1;
    var m := messages[n].1;
    ReplaceValue(messages, n, m.(signals := Set(m.signals, signalName, s)));
  }

  /** Two maps with the same keys have the same key at every position. */
  lemma KeysAgree<K, V>(a: OMap<K, V>, b: OMap<K, V>)
    requires Keys(a) == Keys(b)
    ensures |a| == |b| && forall j :: 0 <= j < |a| ==> a[j].0 == b[j].0
  {
    assert |Keys(a)| == |Keys(b)|;
    forall j | 0 <= j < |a| ensures a[j].0 == b[j].0 {
      assert Keys(a)[j] == Keys(b)[j];
    }
  }

  /** A message declared under a new name is last, so the `SG_` line that
      follows puts its signal there, as its only signal. */
  lemma NewMessageReceivesSignal(g1: Groups, g2: Groups, d: DbcData)
    requires !Has(d.messages, Group(g1, "messageName"))
    ensures Keys(SignalLine(g2, MessageLine(g1, d)).messages) == Keys(d.messages) + [Group(g1, "messageName")]
    ensures Get(SignalLine(g2, MessageLine(g1, d)).messages, Group(g1, "messageName")) ==
      Some(ParseMessage(MessageGroups(g1)).(signals := [(Group(g2, "name"), ParseSignal(SignalGroups(g2)))]))
  {
    NewThenSignal(d.messages, Group(g1, "messageName"), ParseMessage(MessageGroups(g1)), Group(g2, "name"), ParseSignal(SignalGroups(g2)));
  }

  lemma NewThenSignal(before: OMap<string, Message>, name: string, m: Message, signalName: string, s: Signal)
    requires !Has(before, name) && m.signals == []
    ensures Keys(AddSignalToLast(Set(before, name, m), signalName, s)) == Keys(before) + [name]
    ensures Get(AddSignalToLast(Set(before, name, m), signalName, s), name) == Some(m.(signals := [(signalName, s)]))
  {
    SetNew(before, name, m);
    SetNew(m.signals, signalName, s);
    var after := before + [(name, m)];
    var n := |before|;
    var m' := m.(signals := [(signalName, s)]);
    var r := after[n := (name, m')];
    assert after[n] == (name, m);
    assert Set(m.signals, signalName, s) == [(signalName, s)];
    assert AddSignalToLast(after, signalName, s) == r;
    assert forall j :: 0 <= j < n ==> r[j].0 != name;
    assert |r| == n + 1 && r[n].0 == name;
    assert IndexOf(r, name) == Some(n);
    ReplaceValue(after, n, m');
    assert Keys(after) == Keys(before) + [name];
  }

  /** The signals a run of `SG_` lines with captured groups `gs` declares, in
      line order, each filed under its own name. */
  function SignalEntries(gs: seq<Groups>): (r: OMap<string, Signal>)
    ensures |r| == |gs|
  {
    Entries(SignalName, SignalOfGroups, gs)
  }

  /** The name an `SG_` line's groups file its signal under. */
  function SignalName(g: Groups): string {
    Group(g, "name")
  }

  /** The signal an `SG_` line's groups describe. */
  function SignalOfGroups(g: Groups): Signal {
    ParseSignal(SignalGroups(g))
  }

  /** Lines that the registry classifies as `SG_` with the groups `gs`. */
  predicate SignalLinesWith(tokens: Tokens, lines: seq<string>, gs: seq<Groups>) {
    && |lines| == |gs|
    && forall i :: 0 <= i < |lines| ==> Classify(tokens, lines[i]) == LineInfo(lines[i], Some("SG_"), Some(Some(gs[i])))
  }

  /** A line classified as `SG_` with groups `g` applies the `SG_` case. */
  lemma SignalLineClassified(tokens: Tokens, line: string, g: Groups, d: DbcData)
    requires Classify(tokens, line) == LineInfo(line, Some("SG_"), Some(Some(g)))
    ensures Apply(Classify(tokens, line), d) == SignalLine(g, d)
  {
    ApplyRecognised(Classify(tokens, line), "SG_", g, d);
    SignalToken(g, d);
  }

  /** A line with a token and captured groups applies that token's effect. */
  lemma ApplyRecognised(info: LineInfo, token: string, g: Groups, d: DbcData)
    requires info.baseToken == Some(token) && info.regexMatch == Some(Some(g))
    ensures Apply(info, d) == ApplyToken(token, g, d)
  {
  }

  /** The `SG_` token selects the signal case. */
  lemma SignalToken(g: Groups, d: DbcData)
    ensures ApplyToken("SG_", g, d) == SignalLine(g, d)
  {
    assert CaseOf("SG_") == Some(SignalCase);
  }

  /** The `BO_` token selects the message case. */
  lemma MessageToken(g: Groups, d: DbcData)
    ensures ApplyToken("BO_", g, d) == MessageLine(g, d)
  {
    assert CaseOf("BO_") == Some(MessageCase);
  }

  /** A line classified as `BO_` with groups `g` applies the `BO_` case. */
  lemma MessageLineClassified(tokens: Tokens, line: string, g: Groups, d: DbcData)
    requires Classify(tokens, line) == LineInfo(line, Some("BO_"), Some(Some(g)))
    ensures Apply(Classify(tokens, line), d) == MessageLine(g, d)
  {
    ApplyRecognised(Classify(tokens, line), "BO_", g, d);
    MessageToken(g, d);
  }

  /** The message list with the last message's signals replaced by `signals`. */
  function WithLastSignals(messages: OMap<string, Message>, signals: OMap<string, Signal>): (r: OMap<string, Message>)
    requires messages != []
    ensures |r| == |messages| && r != []
    ensures LastMessage(r) == LastMessage(messages).(signals := signals)
  {
    var n := |messages| - 1;
    messages[n := (messages[n].0, messages[n].1.(signals := signals))]
  }

  /** Replacing the last message's signals twice keeps only the second replacement. */
  lemma WithLastSignalsTwice(messages: OMap<string, Message>, a: OMap<string, Signal>, b: OMap<string, Signal>)
    requires messages != []
    ensures WithLastSignals(WithLastSignals(messages, a), b) == WithLastSignals(messages, b)
  {
  }

  /** Replacing the signals of a message just appended. */
  lemma WithLastSignalsAppended(messages: OMap<string, Message>, key: string, m: Message, signals: OMap<string, Signal>)
    ensures WithLastSignals(messages + [(key, m)], signals) == messages + [(key, m.(signals := signals))]
  {
  }

  /** Replacing the last message's signals by its own signals changes nothing. */
  lemma WithLastSignalsSame(messages: OMap<string, Message>)
    requires messages != []
    ensures WithLastSignals(messages, LastMessage(messages).signals) == messages
  {
  }

  /** A signal with a new name is appended to the last message's signals. */
  lemma AppendToLast(messages: OMap<string, Message>, name: string, s: Signal)
    requires messages != [] && !Has(LastMessage(messages).signals, name)
    ensures AddSignalToLast(messages, name, s) == WithLastSignals(messages, LastMessage(messages).signals + [(name, s)])
  {
    SetNew(LastMessage(messages).signals, name, s);
  }

  /** The lines and groups of a run, less the first. */
  lemma SignalLinesTail(tokens: Tokens, lines: seq<string>, gs: seq<Groups>)
    requires lines != [] && SignalLinesWith(tokens, lines, gs)
    ensures SignalLinesWith(tokens, lines[1..], gs[1..])
  {
    forall i | 0 <= i < |lines[1..]|
      ensures Classify(tokens, lines[1..][i]) == LineInfo(lines[1..][i], Some("SG_"), Some(Some(gs[1..][i])))
    {
      assert lines[1..][i] == lines[i + 1] && gs[1..][i] == gs[i + 1];
    }
  }

  /** The `SG_` case applied for each of `gs` in turn. */
  function SignalLines(gs: seq<Groups>, d: DbcData): DbcData
    decreases |gs|
  {
    if gs == [] then d else SignalLines(gs[1..], SignalLine(gs[0], d))
  }

  /** Parsing lines classified as `SG_` applies the `SG_` case for each, in order. */
  lemma {:induction false} ParseSignalLines(tokens: Tokens, lines: seq<string>, gs: seq<Groups>, d: DbcData)
    requires SignalLinesWith(tokens, lines, gs)
    ensures ParseAll(tokens, lines, d) == SignalLines(gs, d)
    decreases |lines|
  {
    if lines != [] {
      SignalLineClassified(tokens, lines[0], gs[0], d);
      SignalLinesTail(tokens, lines, gs);
      ParseSignalLines(tokens, lines[1..], gs[1..], SignalLine(gs[0], d));
    }
  }

  /** The entries `es` set, one after the other, in the last message. */
  function AddEntriesToLast(messages: OMap<string, Message>, es: OMap<string, Signal>): OMap<string, Message>
    decreases |es|
  {
    if es == [] then messages else AddEntriesToLast(AddSignalToLast(messages, es[0].0, es[0].1), es[1..])
  }

  /** The `SG_` cases for `gs` set the signals `SignalEntries(gs)` in the last message. */
  lemma {:induction false} SignalLinesAsEntries(gs: seq<Groups>, d: DbcData)
    ensures SignalLines(gs, d) == d.(messages := AddEntriesToLast(d.messages, SignalEntries(gs)))
    decreases |gs|
  {
    if gs != [] {
      SignalLinesAsEntries(gs[1..], SignalLine(gs[0], d));
      assert SignalEntries(gs)[1..] == SignalEntries(gs[1..]);
    }
  }

  /** Entries whose names are new to the last message, and distinct, are
      appended to its signals in order. */
  lemma {:induction false} AddFreshEntries(messages: OMap<string, Message>, es: OMap<string, Signal>)
    requires messages != []
    requires DistinctKeys(LastMessage(messages).signals + es)
    ensures AddEntriesToLast(messages, es) == WithLastSignals(messages, LastMessage(messages).signals + es)
    decreases |es|
  {
    var sigs := LastMessage(messages).signals;
    if es == [] {
      assert sigs + es == sigs;
      WithLastSignalsSame(messages);
    } else {
      var all := sigs + es;
      assert all[|sigs|] == es[0];
      assert forall j :: 0 <= j < |sigs| ==> sigs[j].0 == all[j].0 != es[0].0;
      AppendToLast(messages, es[0].0, es[0].1);
      var m1 := WithLastSignals(messages, sigs + [es[0]]);
      assert sigs + [es[0]] + es[1..] == all;
      AddFreshEntries(m1, es[1..]);
      WithLastSignalsTwice(messages, sigs + [es[0]], all);
    }
  }

  /** Distinct signal names give distinct entry keys. */
  lemma DistinctSignalEntries(gs: seq<Groups>)
    requires forall i, j :: 0 <= i < j < |gs| ==> Group(gs[i], "name") != Group(gs[j], "name")
    ensures DistinctKeys(SignalEntries(gs))
  {
    assert forall i :: 0 <= i < |gs| ==> SignalName(gs[i]) == Group(gs[i], "name");
    EntriesDistinct(SignalName, SignalOfGroups, gs);
  }

  /** A message declaration under a new name followed by `SG_` lines with
      distinct names gives that message exactly those signals, keyed by their
      names in declaration order; the message is appended last. */
  lemma MessageThenSignals(tokens: Tokens, line: string, g: Groups, lines: seq<string>, gs: seq<Groups>, d: DbcData)
    requires Classify(tokens, line) == LineInfo(line, Some("BO_"), Some(Some(g)))
    requires !Has(d.messages, Group(g, "messageName"))
    requires SignalLinesWith(tokens, lines, gs)
    requires forall i, j :: 0 <= i < j < |gs| ==> Group(gs[i], "name") != Group(gs[j], "name")
    ensures var r := ParseAll(tokens, [line] + lines, d);
      && Keys(r.messages) == Keys(d.messages) + [Group(g, "messageName")]
      && Get(r.messages, Group(g, "messageName")) == Some(ParseMessage(MessageGroups(g)).(signals := SignalEntries(gs)))
      && r.(messages := d.messages) == d
  {
    var name, m := Group(g, "messageName"), ParseMessage(MessageGroups(g));
    MessageThenSignalLines(tokens, line, g, lines, gs, d);
    SignalsOfNewMessage(g, gs, d);
    AppendedMessage(d, name, m.(signals := SignalEntries(gs)));
  }

  /** The lines of a message declaration and its `SG_` lines apply the `BO_`
      case and then the `SG_` case for each. */
  lemma MessageThenSignalLines(tokens: Tokens, line: string, g: Groups, lines: seq<string>, gs: seq<Groups>, d: DbcData)
    requires Classify(tokens, line) == LineInfo(line, Some("BO_"), Some(Some(g)))
    requires SignalLinesWith(tokens, lines, gs)
    ensures ParseAll(tokens, [line] + lines, d) == SignalLines(gs, MessageLine(g, d))
  {
    assert ([line] + lines)[0] == line && ([line] + lines)[1..] == lines;
    MessageLineClassified(tokens, line, g, d);
    ParseSignalLines(tokens, lines, gs, MessageLine(g, d));
  }

  /** A message declared under a new name and then given signals with distinct
      names is appended holding exactly those signals. */
  lemma SignalsOfNewMessage(g: Groups, gs: seq<Groups>, d: DbcData)
    requires !Has(d.messages, Group(g, "messageName"))
    requires forall i, j :: 0 <= i < j < |gs| ==> Group(gs[i], "name") != Group(gs[j], "name")
    ensures SignalLines(gs, MessageLine(g, d)) ==
      d.(messages := d.messages + [(Group(g, "messageName"), ParseMessage(MessageGroups(g)).(signals := SignalEntries(gs)))])
  {
    var name, m := Group(g, "messageName"), ParseMessage(MessageGroups(g));
    SetNew(d.messages, name, m);
    assert MessageLine(g, d) == d.(messages := d.messages + [(name, m)]);
    SignalsOfAppended(gs, d, name, m);
  }

  /** Signals with distinct names declared right after a message without
      signals become exactly that message's signals. */
  lemma SignalsOfAppended(gs: seq<Groups>, d: DbcData, name: string, m: Message)
    requires m.signals == []
    requires forall i, j :: 0 <= i < j < |gs| ==> Group(gs[i], "name") != Group(gs[j], "name")
    ensures SignalLines(gs, d.(messages := d.messages + [(name, m)])) ==
      d.(messages := d.messages + [(name, m.(signals := SignalEntries(gs)))])
  {
    var d1 := d.(messages := d.messages + [(name, m)]);
    assert LastMessage(d1.messages) == m;
    SignalLinesAsEntries(gs, d1);
    var es := SignalEntries(gs);
    DistinctSignalEntries(gs);
    assert m.signals + es == es;
    AddFreshEntries(d1.messages, es);
    WithLastSignalsAppended(d.messages, name, m, es);
  }

  /** Appending a message under a new name adds its key last and files it there. */
  lemma AppendedMessage(d: DbcData, name: string, m: Message)
    requires !Has(d.messages, name)
    ensures var r := d.(messages := d.messages + [(name, m)]);
      && Keys(r.messages) == Keys(d.messages) + [name]
      && Get(r.messages, name) == Some(m)
      && r.(messages := d.messages) == d
  {
    SetNew(d.messages, name, m);
    GetSetSame(d.messages, name, m);
    SetKeys(d.messages, name, m);
  }

  // ---------------------------------------------------------------------------
  // CM_ BO_, CM_ SG_, VAL_: lookups by id, then by signal name
  // ---------------------------------------------------------------------------

  /** Position `i` holds the first message, in insertion order, whose id is `id`. */
  predicate FirstWithId(messages: OMap<string, Message>, id: JsInt, i: nat) {
    && i < |messages|
    && SameNumber(messages[i].1.id, id)
    && forall j :: 0 <= j < i ==> !SameNumber(messages[j].1.id, id)
  }

  lemma FirstByIdIsFirst(messages: OMap<string, Message>, id: JsInt, i: nat)
    requires FirstWithId(messages, id, i)
    ensures FirstById(messages, id) == Some(i)
  {
    var r := FirstById(messages, id);
    assert r.Some?;
    assert !(r.value < i) && !(i < r.value);
  }

  /** When no message has the id (a `NaN` id never matches), `CM_ BO_`,
      `CM_ SG_` and `VAL_` change nothing. */
  lemma UnknownIdIsNoOp(g: Groups, d: DbcData)
    requires forall j :: 0 <= j < |d.messages| ==> !SameNumber(d.messages[j].1.id, ParseInt(Group(g, "id")))
    ensures MessageCommentLine(g, d) == d
    ensures SignalCommentLine(g, d) == d
    ensures ValueLine(g, d) == d
  {
    assert FirstById(d.messages, ParseInt(Group(g, "id"))).None?;
  }

  /** When the first message with the id has no signal of that name,
      `CM_ SG_` and `VAL_` change nothing. */
  lemma UnknownSignalIsNoOp(g: Groups, d: DbcData, i: nat)
    requires FirstWithId(d.messages, ParseInt(Group(g, "id")), i)
    requires !Has(d.messages[i].1.signals, Group(g, "name"))
    ensures SignalCommentLine(g, d) == d
    ensures ValueLine(g, d) == d
  {
    FirstByIdIsFirst(d.messages, ParseInt(Group(g, "id")), i);
    assert d.messages[i := (d.messages[i].0, d.messages[i].1)] == d.messages;
  }

  /** `CM_ BO_` sets the description of the first message with the id and of
      no other; the keys keep their order. */
  lemma MessageComment(g: Groups, d: DbcData, i: nat)
    requires FirstWithId(d.messages, ParseInt(Group(g, "id")), i)
    ensures var r := MessageCommentLine(g, d);
      && Keys(r.messages) == Keys(d.messages)
      && r.messages[i].1 == d.messages[i].1.(description := OptGroup(g, "comment"))
      && (forall j :: 0 <= j < |d.messages| && j != i ==> r.messages[j] == d.messages[j])
      && r.(messages := d.messages) == d
  {
    FirstByIdIsFirst(d.messages, ParseInt(Group(g, "id")), i);
    ReplaceValue(d.messages, i, d.messages[i].1.(description := OptGroup(g, "comment")));
  }

  /** `CM_ SG_` sets the description of the named signal of the first message
      with the id. No other signal, message or field changes. */
  lemma SignalComment(g: Groups, d: DbcData, i: nat, s: Signal)
    requires FirstWithId(d.messages, ParseInt(Group(g, "id")), i)
    requires Get(d.messages[i].1.signals, Group(g, "name")) == Some(s)
    ensures var r := SignalCommentLine(g, d); var m := d.messages[i].1;
      && Keys(r.messages) == Keys(d.messages)
      && (forall j :: 0 <= j < |d.messages| && j != i ==> r.messages[j] == d.messages[j])
      && r.messages[i].1 == m.(signals := r.messages[i].1.signals)
      && Keys(r.messages[i].1.signals) == Keys(m.signals)
      && Get(r.messages[i].1.signals, Group(g, "name")) == Some(s.(description := OptGroup(g, "comment")))
      && (forall k :: k != Group(g, "name") ==> Get(r.messages[i].1.signals, k) == Get(m.signals, k))
      && r.(messages := d.messages) == d
  {
    var name, m := Group(g, "name"), d.messages[i].1;
    var s' := s.(description := OptGroup(g, "comment"));
    FirstByIdIsFirst(d.messages, ParseInt(Group(g, "id")), i);
    assert SignalCommentLine(g, d).messages == d.messages[i := (d.messages[i].0, m.(signals := Set(m.signals, name, s')))];
    ReplaceSignal(d.messages, i, name, s');
  }

  /** Replacing a signal of message `i` changes that signal only; keys keep
      their order. */
  lemma ReplaceSignal(messages: OMap<string, Message>, i: nat, name: string, s: Signal)
    requires i < |messages| && Has(messages[i].1.signals, name)
    ensures var m := messages[i].1;
      var r := messages[i := (messages[i].0, m.(signals := Set(m.signals, name, s)))];
      && Keys(r) == Keys(messages)
      && (forall j :: 0 <= j < |messages| && j != i ==> r[j] == messages[j])
      && r[i].1 == m.(signals := r[i].1.signals)
      && Keys(r[i].1.signals) == Keys(m.signals)
      && Get(r[i].1.signals, name) == Some(s)
      && (forall k :: k != name ==> Get(r[i].1.signals, k) == Get(m.signals, k))
  {
    var m := messages[i].1;
    ReplaceValue(messages, i, m.(signals := Set(m.signals, name, s)));
    SetKeys(m.signals, name, s);
    GetSetSame(m.signals, name, s);
    forall k | k != name ensures Get(Set(m.signals, name, s), k) == Get(m.signals, k) {
      GetSetOther(m.signals, name, s, k);
    }
  }

  /** `VAL_` attaches the value table its definition text describes to the
      named signal of the first message with the id, replacing any table the
      signal had. No other signal, message or field changes. */
  lemma SignalValueTable(g: Groups, d: DbcData, i: nat, s: Signal)
    requires FirstWithId(d.messages, ParseInt(Group(g, "id")), i)
    requires Get(d.messages[i].1.signals, Group(g, "name")) == Some(s)
    ensures var r := ValueLine(g, d); var m := d.messages[i].1;
      && Keys(r.messages) == Keys(d.messages)
      && (forall j :: 0 <= j < |d.messages| && j != i ==> r.messages[j] == d.messages[j])
      && r.messages[i].1 == m.(signals := r.messages[i].1.signals)
      && Keys(r.messages[i].1.signals) == Keys(m.signals)
      && Get(r.messages[i].1.signals, Group(g, "name")) == Some(s.(valueTable := Some(DefinitionTable(Group(g, "definition")))))
      && (forall k :: k != Group(g, "name") ==> Get(r.messages[i].1.signals, k) == Get(m.signals, k))
      && r.(messages := d.messages) == d
  {
    var name, m := Group(g, "name"), d.messages[i].1;
    var s' := s.(valueTable := Some(DefinitionTable(Group(g, "definition"))));
    FirstByIdIsFirst(d.messages, ParseInt(Group(g, "id")), i);
    assert ValueLine(g, d).messages == d.messages[i := (d.messages[i].0, m.(signals := Set(m.signals, name, s')))];
    ReplaceSignal(d.messages, i, name, s');
  }

  // ---------------------------------------------------------------------------
  // VAL_TABLE_, BA_DEF_, BA_DEF_DEF_
  // ---------------------------------------------------------------------------

  /** `VAL_TABLE_` files the table under its name when the database has a
      value-table map (`valueTables?.set`), and does nothing when it is null. */
  lemma ValueTableDeclaration(g: Groups, d: DbcData)
    ensures d.valueTables.None? ==> ValueTableLine(g, d) == d
    ensures d.valueTables.Some? ==>
      var r := ValueTableLine(g, d);
      && r.valueTables.Some?
      && Get(r.valueTables.value, Group(g, "name")) == Some(DefinitionTable(Group(g, "definition")))
      && (forall k :: k != Group(g, "name") ==> Get(r.valueTables.value, k) == Get(d.valueTables.value, k))
      && (Has(d.valueTables.value, Group(g, "name")) ==> Keys(r.valueTables.value) == Keys(d.valueTables.value))
      && (!Has(d.valueTables.value, Group(g, "name")) ==>
            Keys(r.valueTables.value) == Keys(d.valueTables.value) + [Group(g, "name")])
      && r.(valueTables := d.valueTables) == d
  {
    if d.valueTables.Some? {
      var t, name := DefinitionTable(Group(g, "definition")), Group(g, "name");
      GetSetSame(d.valueTables.value, name, t);
      SetKeys(d.valueTables.value, name, t);
      forall k | k != name ensures Get(Set(d.valueTables.value, name, t), k) == Get(d.valueTables.value, k) {
        GetSetOther(d.valueTables.value, name, t, k);
      }
    }
  }

  /** `BA_DEF_` files the generated attribute under its name, replacing any
      earlier definition; nothing else changes. */
  lemma AttributeDefinition(g: Groups, d: DbcData)
    ensures var r := AttributeDefinitionLine(g, d); var name := Group(g, "name");
      && Get(r.attributes, name) == Some(AttributeOf(name, Group(g, "type"), Group(g, "dataType"), Group(g, "config")))
      && Get(r.attributes, name).value.value.None?
      && (forall k :: k != name ==> Get(r.attributes, k) == Get(d.attributes, k))
      && (Has(d.attributes, name) ==> Keys(r.attributes) == Keys(d.attributes))
      && (!Has(d.attributes, name) ==> Keys(r.attributes) == Keys(d.attributes) + [name])
      && r.(attributes := d.attributes) == d
  {
    var name := Group(g, "name");
    var a := AttributeOf(name, Group(g, "type"), Group(g, "dataType"), Group(g, "config"));
    assert a.value.None?;
    assert AttributeDefinitionLine(g, d) == d.(attributes := Set(d.attributes, name, a));
    AttributeSet(d, name, a);
  }

  /** Setting one attribute: it reads back, every other name reads as before,
      and the key is kept in place or appended. */
  lemma AttributeSet(d: DbcData, name: string, a: Attribute)
    ensures var r := d.(attributes := Set(d.attributes, name, a));
      && Get(r.attributes, name) == Some(a)
      && (forall k :: k != name ==> Get(r.attributes, k) == Get(d.attributes, k))
      && (Has(d.attributes, name) ==> Keys(r.attributes) == Keys(d.attributes))
      && (!Has(d.attributes, name) ==> Keys(r.attributes) == Keys(d.attributes) + [name])
      && r.(attributes := d.attributes) == d
  {
    GetSetSame(d.attributes, name, a);
    SetKeys(d.attributes, name, a);
    forall k | k != name ensures Get(Set(d.attributes, name, a), k) == Get(d.attributes, k) {
      GetSetOther(d.attributes, name, a, k);
    }
  }

  /** `BA_DEF_DEF_` with an empty name, or a name no `BA_DEF_` defined, changes nothing. */
  lemma AttributeDefaultIgnored(g: Groups, d: DbcData)
    requires Group(g, "name") == "" || !Has(d.attributes, Group(g, "name"))
    ensures AttributeDefaultLine(g, d) == d
  {
  }

  /** `BA_DEF_DEF_` on a defined attribute sets its value, and nothing else,
      to the data with every double quote removed (`"` anywhere, not only the
      outer pair), or to the empty string when there is no data. */
  lemma AttributeDefault(g: Groups, d: DbcData, a: Attribute)
    requires Group(g, "name") != "" && Get(d.attributes, Group(g, "name")) == Some(a)
    ensures var r := AttributeDefaultLine(g, d); var name := Group(g, "name"); var data := Group(g, "data");
      && Get(r.attributes, name).Some?
      && Get(r.attributes, name).value.value.Some?
      && Get(r.attributes, name).value.value.value.StringValue?
      && var text := Get(r.attributes, name).value.value.value.text;
      && Get(r.attributes, name).value == a.(value := Some(StringValue(text)))
      && text == RemoveAll(data, '"')
      && '"' !in text
      && (forall c :: c != '"' ==> multiset(text)[c] == multiset(data)[c])
      && ('"' !in data ==> text == data)
      && (forall k :: k != name ==> Get(r.attributes, k) == Get(d.attributes, k))
      && Keys(r.attributes) == Keys(d.attributes)
      && r.(attributes := d.attributes) == d
  {
    var name, data := Group(g, "name"), Group(g, "data");
    var text := if data != "" then RemoveAll(data, '"') else "";
    var a' := a.(value := Some(StringValue(text)));
    GetSetSame(d.attributes, name, a');
    SetKeys(d.attributes, name, a');
    forall k | k != name ensures Get(Set(d.attributes, name, a'), k) == Get(d.attributes, k) {
      GetSetOther(d.attributes, name, a', k);
    }
    if '"' !in data && data != "" {
      RemoveAllAbsent(data, '"');
    }
  }
}
