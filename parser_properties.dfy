/** What the current engine (src/dbc/parser.ts) promises, stated over the
    pure transition `Apply`, the classifier `Classify` and the fold `ParseAll`. */
module ParserProperties {
  import opened Wrappers
  import opened JsMap
  import opened JsText
  import opened DbcTypes
  import opened Parser

  // ---------------------------------------------------------------------------
  // The database invariant
  // ---------------------------------------------------------------------------

  /** Every value table `extractDefinition` builds has one entry per raw value. */
  lemma DefinitionTableDistinct(definition: string)
    ensures DistinctKeys(DefinitionTable(definition))
  {
    SetAllDistinct([], DefinitionEntries(DefinitionMatches(definition)));
  }

  /** A signal found by name in a well-formed message carries that name. */
  lemma SignalFoundByName(m: Message, key: string, name: string)
    requires MessageEntryWellFormed(key, m)
    requires GetSignalByNameFromMsg(m, name).Some?
    ensures SignalEntryWellFormed(name, GetSignalByNameFromMsg(m, name).value)
  {
    var s := GetSignalByNameFromMsg(m, name).value;
    var i :| 0 <= i < |m.signals| && m.signals[i] == (name, s);
    assert SignalEntryWellFormed(m.signals[i].0, m.signals[i].1);
  }

  /** Replacing a message's signal by a well-formed one keeps the message well formed. */
  lemma SetSignalWellFormed(key: string, m: Message, name: string, s: Signal)
    requires MessageEntryWellFormed(key, m)
    requires SignalEntryWellFormed(name, s)
    ensures MessageEntryWellFormed(key, m.(signals := Set(m.signals, name, s)))
  {
    SetDistinct(m.signals, name, s);
    SetKeepsAll(m.signals, name, s, (k, x) => SignalEntryWellFormed(k, x));
  }

  /** Replacing one entry of the message list by a well-formed entry with the
      same key keeps the list well formed. */
  lemma ReplaceMessageWellFormed(d: DbcData, i: nat, m: Message)
    requires WellFormed(d) && i < |d.messages|
    requires MessageEntryWellFormed(d.messages[i].0, m)
    ensures WellFormed(d.(messages := d.messages[i := (d.messages[i].0, m)]))
  {
    var ms := d.messages[i := (d.messages[i].0, m)];
    assert forall j :: 0 <= j < |ms| ==> ms[j].0 == d.messages[j].0;
  }

  /** Every transition keeps the database well formed: distinct keys in every
      map, and every message, signal and attribute filed under its own name. */
  lemma ApplyPreservesWellFormed(info: LineInfo, d: DbcData)
    requires WellFormed(d)
    ensures WellFormed(Apply(info, d))
  {
    if info.regexMatch.Some? && info.regexMatch.value.Some? && info.baseToken.Some? {
      var c := CaseOf(info.baseToken.value);
      if c.Some? {
        ApplyCasePreservesWellFormed(c.value, info.regexMatch.value.value, d);
      }
    }
  }

  lemma ApplyCasePreservesWellFormed(c: TokenCase, g: Groups, d: DbcData)
    requires WellFormed(d)
    ensures WellFormed(ApplyCase(c, g, d))
  {
    if c.VersionCase? || c.NodesCase? || c.BusCase? || c.CommentCase? || c.NodeCommentCase? {
      OtherFieldCasesWellFormed(c, g, d);
    } else if c.ValueTableCase? || c.AttributeDefCase? || c.AttributeDefaultCase? {
      TableCasesWellFormed(c, g, d);
    } else {
      MessageCasesWellFormed(c, g, d);
    }
  }

  /** The cases that change neither the messages, the value tables nor the attributes. */
  lemma OtherFieldCasesWellFormed(c: TokenCase, g: Groups, d: DbcData)
    requires WellFormed(d)
    requires c.VersionCase? || c.NodesCase? || c.BusCase? || c.CommentCase? || c.NodeCommentCase?
    ensures WellFormed(ApplyCase(c, g, d))
  {
    OtherFieldCasesKeepMaps(c, g, d);
    SameMapsWellFormed(d, ApplyCase(c, g, d));
  }

  /** Those cases keep the messages, the value tables and the attributes. */
  lemma OtherFieldCasesKeepMaps(c: TokenCase, g: Groups, d: DbcData)
    requires c.VersionCase? || c.NodesCase? || c.BusCase? || c.CommentCase? || c.NodeCommentCase?
    ensures var e := ApplyCase(c, g, d);
      e.messages == d.messages && e.valueTables == d.valueTables && e.attributes == d.attributes
  {
  }

  /** The cases that set a value table or an attribute. */
  lemma TableCasesWellFormed(c: TokenCase, g: Groups, d: DbcData)
    requires WellFormed(d)
    requires c.ValueTableCase? || c.AttributeDefCase? || c.AttributeDefaultCase?
    ensures WellFormed(ApplyCase(c, g, d))
  {
    match c
    case ValueTableCase => ValueTableWellFormedAfter(g, d);
    case AttributeDefCase => AttributeDefinitionWellFormed(g, d);
    case AttributeDefaultCase => AttributeDefaultWellFormed(g, d);
  }

  /** The cases that change the message list. */
  lemma MessageCasesWellFormed(c: TokenCase, g: Groups, d: DbcData)
    requires WellFormed(d)
    requires c.MessageCase? || c.SignalCase? || c.MessageCommentCase? || c.SignalCommentCase? || c.ValueCase?
    ensures WellFormed(ApplyCase(c, g, d))
  {
    match c
    case MessageCase => MessageDeclarationWellFormed(g, d);
    case SignalCase => SignalLineWellFormed(g, d);
    case MessageCommentCase => MessageCommentWellFormed(g, d);
    case SignalCommentCase => SignalCommentWellFormed(g, d);
    case ValueCase => ValueAssignmentWellFormed(g, d);
  }

  /** Well-formedness only looks at the messages, the value tables and the
      attributes. */
  lemma SameMapsWellFormed(d: DbcData, e: DbcData)
    requires WellFormed(d)
    requires e.messages == d.messages && e.valueTables == d.valueTables && e.attributes == d.attributes
    ensures WellFormed(e)
  {
  }

  lemma SignalLineWellFormed(g: Groups, d: DbcData)
    requires WellFormed(d)
    ensures WellFormed(SignalLine(g, d))
  {
    AddSignalWellFormed(d, Group(g, "name"), ParseSignal(SignalGroups(g)));
  }

  lemma MessageCommentWellFormed(g: Groups, d: DbcData)
    requires WellFormed(d)
    ensures WellFormed(MessageCommentLine(g, d))
  {
    var r := FirstById(d.messages, ParseInt(Group(g, "id")));
    if r.Some? {
      ReplaceMessageWellFormed(d, r.value, d.messages[r.value].1.(description := OptGroup(g, "comment")));
    }
  }

  lemma MessageDeclarationWellFormed(g: Groups, d: DbcData)
    requires WellFormed(d)
    ensures WellFormed(MessageLine(g, d))
  {
    var k := Group(g, "messageName");
    var m := ParseMessage(MessageGroups(g));
    SetDistinct(d.messages, k, m);
    SetKeepsAll(d.messages, k, m, (key, x) => MessageEntryWellFormed(key, x));
  }

  lemma AddSignalWellFormed(d: DbcData, name: string, s: Signal)
    requires WellFormed(d)
    requires SignalEntryWellFormed(name, s)
    ensures WellFormed(d.(messages := AddSignalToLast(d.messages, name, s)))
  {
    if d.messages != [] {
      var n := |d.messages| - 1;
      SetSignalWellFormed(d.messages[n].0, d.messages[n].1, name, s);
      ReplaceMessageWellFormed(d, n, d.messages[n].1.(signals := Set(d.messages[n].1.signals, name, s)));
    }
  }

  lemma SignalCommentWellFormed(g: Groups, d: DbcData)
    requires WellFormed(d)
    ensures WellFormed(SignalCommentLine(g, d))
  {
    var r := FirstById(d.messages, ParseInt(Group(g, "id")));
    var name := Group(g, "name");
    if r.Some? && GetSignalByNameFromMsg(d.messages[r.value].1, name).Some? {
      var i := r.value;
      var m := d.messages[i].1;
      SignalFoundByName(m, d.messages[i].0, name);
      var s := GetSignalByNameFromMsg(m, name).value.(description := OptGroup(g, "comment"));
      SetSignalWellFormed(d.messages[i].0, m, name, s);
      ReplaceMessageWellFormed(d, i, m.(signals := Set(m.signals, name, s)));
    }
  }

  lemma ValueTableWellFormedAfter(g: Groups, d: DbcData)
    requires WellFormed(d)
    ensures WellFormed(ValueTableLine(g, d))
  {
    var definitions := DefinitionTable(DefinitionGroups(g).definition);
    DefinitionTableDistinct(DefinitionGroups(g).definition);
    if d.valueTables.Some? {
      SetDistinct(d.valueTables.value, Group(g, "name"), definitions);
      SetKeepsAll(d.valueTables.value, Group(g, "name"), definitions, (key, t) => ValueTableWellFormed(t));
    }
  }

  lemma ValueAssignmentWellFormed(g: Groups, d: DbcData)
    requires WellFormed(d)
    ensures WellFormed(ValueLine(g, d))
  {
    var definition := DefinitionTable(DefinitionGroups(g).definition);
    DefinitionTableDistinct(DefinitionGroups(g).definition);
    var r := FirstById(d.messages, ParseInt(Group(g, "id")));
    var name := Group(g, "name");
    if r.Some? {
      var i := r.value;
      var m := d.messages[i].1;
      if GetSignalByNameFromMsg(m, name).Some? {
        SignalFoundByName(m, d.messages[i].0, name);
        var s := GetSignalByNameFromMsg(m, name).value.(valueTable := Some(definition));
        SetSignalWellFormed(d.messages[i].0, m, name, s);
      }
      ReplaceMessageWellFormed(d, i, AssignToSigValTable(m, name, definition));
    }
  }

  lemma AttributeDefinitionWellFormed(g: Groups, d: DbcData)
    requires WellFormed(d)
    ensures WellFormed(AttributeDefinitionLine(g, d))
  {
    var name := Group(g, "name");
    var a := AttributeOf(name, Group(g, "type"), Group(g, "dataType"), Group(g, "config"));
    SetDistinct(d.attributes, name, a);
    SetKeepsAll(d.attributes, name, a, (key, x: Attribute) => key == x.name);
  }

  lemma AttributeDefaultWellFormed(g: Groups, d: DbcData)
    requires WellFormed(d)
    ensures WellFormed(AttributeDefaultLine(g, d))
  {
    var name := Group(g, "name");
    if name != "" && Get(d.attributes, name).Some? {
      var a := Get(d.attributes, name).value;
      var i :| 0 <= i < |d.attributes| && d.attributes[i] == (name, a);
      var data := Group(g, "data");
      var a' := a.(value := Some(StringValue(if data != "" then RemoveAll(data, '"') else "")));
      SetDistinct(d.attributes, name, a');
      SetKeepsAll(d.attributes, name, a', (key, x: Attribute) => key == x.name);
    }
  }

  // ---------------------------------------------------------------------------
  // The switch's labels
  // ---------------------------------------------------------------------------

  /** Each of the thirteen labels of the switch selects its own case. */
  lemma CaseLabels()
    ensures CaseOf("VERSION") == Some(VersionCase)
    ensures CaseOf("BO_") == Some(MessageCase)
    ensures CaseOf("SG_") == Some(SignalCase)
    ensures CaseOf("BU_") == Some(NodesCase)
    ensures CaseOf("BS_") == Some(BusCase)
    ensures CaseOf("CM_") == Some(CommentCase)
    ensures CaseOf("CM_ BU_") == Some(NodeCommentCase)
    ensures CaseOf("CM_ BO_") == Some(MessageCommentCase)
    ensures CaseOf("CM_ SG_") == Some(SignalCommentCase)
    ensures CaseOf("VAL_TABLE_") == Some(ValueTableCase)
    ensures CaseOf("VAL_") == Some(ValueCase)
    ensures CaseOf("BA_DEF_") == Some(AttributeDefCase)
    ensures CaseOf("BA_DEF_DEF_") == Some(AttributeDefaultCase)
  {
    assert "BO_" != "VERSION";
    assert "SG_" != "VERSION" && "SG_" != "BO_";
    assert "BU_" != "VERSION" && "BU_" != "BO_" && "BU_" != "SG_";
    assert "BS_" != "VERSION" && "BS_" != "BO_" && "BS_" != "SG_" && "BS_" != "BU_";
    assert "CM_" != "VERSION" && "CM_" != "BO_" && "CM_" != "SG_" && "CM_" != "BU_" && "CM_" != "BS_";
    assert "CM_ BU_" != "VERSION" && "CM_ BU_" != "BO_" && "CM_ BU_" != "SG_" && "CM_ BU_" != "BU_";
    assert "CM_ BU_" != "BS_" && "CM_ BU_" != "CM_";
    assert "CM_ BO_" != "VERSION" && "CM_ BO_" != "BO_" && "CM_ BO_" != "SG_" && "CM_ BO_" != "BU_";
    assert "CM_ BO_" != "BS_" && "CM_ BO_" != "CM_" && "CM_ BO_" != "CM_ BU_";
    assert "CM_ SG_" != "VERSION" && "CM_ SG_" != "BO_" && "CM_ SG_" != "SG_" && "CM_ SG_" != "BU_";
    assert "CM_ SG_" != "BS_" && "CM_ SG_" != "CM_" && "CM_ SG_" != "CM_ BU_" && "CM_ SG_" != "CM_ BO_";
    assert "VAL_TABLE_" != "VERSION" && "VAL_TABLE_" != "BO_" && "VAL_TABLE_" != "SG_" && "VAL_TABLE_" != "BU_";
    assert "VAL_TABLE_" != "BS_" && "VAL_TABLE_" != "CM_" && "VAL_TABLE_" != "CM_ BU_" && "VAL_TABLE_" != "CM_ BO_";
    assert "VAL_TABLE_" != "CM_ SG_";
    assert "VAL_" != "VERSION" && "VAL_" != "BO_" && "VAL_" != "SG_" && "VAL_" != "BU_";
    assert "VAL_" != "BS_" && "VAL_" != "CM_" && "VAL_" != "CM_ BU_" && "VAL_" != "CM_ BO_";
    assert "VAL_" != "CM_ SG_" && "VAL_" != "VAL_TABLE_";
    assert "BA_DEF_" != "VERSION" && "BA_DEF_" != "BO_" && "BA_DEF_" != "SG_" && "BA_DEF_" != "BU_";
    assert "BA_DEF_" != "BS_" && "BA_DEF_" != "CM_" && "BA_DEF_" != "CM_ BU_" && "BA_DEF_" != "CM_ BO_";
    assert "BA_DEF_" != "CM_ SG_" && "BA_DEF_" != "VAL_TABLE_" && "BA_DEF_" != "VAL_";
    assert "BA_DEF_DEF_" != "VERSION" && "BA_DEF_DEF_" != "BO_" && "BA_DEF_DEF_" != "SG_" && "BA_DEF_DEF_" != "BU_";
    assert "BA_DEF_DEF_" != "BS_" && "BA_DEF_DEF_" != "CM_" && "BA_DEF_DEF_" != "CM_ BU_" && "BA_DEF_DEF_" != "CM_ BO_";
    assert "BA_DEF_DEF_" != "CM_ SG_" && "BA_DEF_DEF_" != "VAL_TABLE_" && "BA_DEF_DEF_" != "VAL_" && "BA_DEF_DEF_" != "BA_DEF_";
  }

  /** Every token name other than the thirteen labels falls to `default`. */
  lemma OtherTokensIgnored(token: string)
    ensures CaseOf(token).None? <==>
      token !in ["VERSION", "BO_", "SG_", "BU_", "BS_", "CM_", "CM_ BU_", "CM_ BO_", "CM_ SG_", "VAL_TABLE_", "VAL_", "BA_DEF_", "BA_DEF_DEF_"]
  {
  }
}
