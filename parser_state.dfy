/** The database as the mutable record `parseLineFromBaseToken` updates in
    place (src/dbc/parser.ts:67-156), and the line-by-line driver around it. */
module ParserState {
  import opened Wrappers
  import opened JsMap
  import opened JsText
  import opened DbcTypes
  import opened Parser
  import opened ParserProperties

  /** A `DbcData` object: each field is reassigned by the transition. */
  class DbcTable {
    var version: Option<string>
    var messages: OMap<string, Message>
    var description: Option<string>
    var busConfiguration: Option<JsInt>
    var canNodes: seq<string>
    var valueTables: Option<OMap<string, ValueTable>>
    var attributes: Attributes

    /** The record's current contents. */
    function Value(): DbcData
      reads this
    {
      DbcData(version, messages, description, busConfiguration, canNodes, valueTables, attributes)
    }

    ghost predicate Valid()
      reads this
    {
      WellFormed(Value())
    }

    constructor (init: DbcData)
      ensures Value() == init
    {
      version := init.version;
      messages := init.messages;
      description := init.description;
      busConfiguration := init.busConfiguration;
      canNodes := init.canNodes;
      valueTables := init.valueTables;
      attributes := init.attributes;
    }
  }

  /** `parseLineFromBaseToken`: applies one classified line to `data` in place.
      The new contents are exactly `Apply(info, ·)` of the old, and the
      well-formedness of the database is kept. */
  method ParseLineFromBaseToken(info: LineInfo, data: DbcTable)
    modifies data
    ensures data.Value() == Apply(info, old(data.Value()))
    ensures old(data.Valid()) ==> data.Valid()
  {
    if data.Valid() {
      ApplyPreservesWellFormed(info, data.Value());
    }
    if !(info.regexMatch.Some? && info.regexMatch.value.Some?) {
      // No token (no match array) or a failed match: reading `.groups` throws.
      return;
    }
    var groups := info.regexMatch.value.value;
    if info.baseToken.None? {
      return;
    }
    match CaseOf(info.baseToken.value)
    case None =>
    case Some(VersionCase) =>
      data.version := ParseVersion(VersionGroups(groups));
    case Some(MessageCase) =>
      data.messages := Set(data.messages, Group(groups, "messageName"), ParseMessage(MessageGroups(groups)));
    case Some(SignalCase) =>
      AddSignal(Group(groups, "name"), ParseSignal(SignalGroups(groups)), data);
    case Some(NodesCase) =>
      data.canNodes := ParseCanNodes(CanNodesGroups(groups));
    case Some(BusCase) =>
      data.busConfiguration := Some(ParseCanConfiguration(CanConfigGroups(groups)));
    case Some(CommentCase) =>
      data.description := OptGroup(groups, "comment");
    case Some(NodeCommentCase) =>
    case Some(MessageCommentCase) =>
      CommentMessageById(groups, data);
    case Some(SignalCommentCase) =>
      CommentSignalById(groups, data);
    case Some(ValueTableCase) =>
      AddValueTable(groups, data);
    case Some(ValueCase) =>
      AssignValueTableById(groups, data);
    case Some(AttributeDefCase) =>
      DefineAttribute(groups, data);
    case Some(AttributeDefaultCase) =>
      SetAttributeDefaultValue(groups, data);
  }

  /** The `SG_` case: the signal is set, by name, in the last message, if any. */
  method AddSignal(name: string, signal: Signal, data: DbcTable)
    modifies data
    ensures data.Value() == old(data.Value()).(messages := AddSignalToLast(old(data.messages), name, signal))
  {
    if |data.messages| > 0 {
      var last := |data.messages| - 1;
      var msg := data.messages[last].1;
      msg := msg.(signals := Set(msg.signals, name, signal));
      data.messages := data.messages[last := (data.messages[last].0, msg)];
    }
  }

  /** The `CM_ BO_` case: the comment goes to the first message with the id. */
  method CommentMessageById(groups: Groups, data: DbcTable)
    modifies data
    ensures data.Value() == MessageCommentLine(groups, old(data.Value()))
  {
    var found := GetMessageByIdFromData(data.Value(), ParseInt(Group(groups, "id")));
    if found.Some? {
      var i := found.value;
      data.messages := data.messages[i := (data.messages[i].0, data.messages[i].1.(description := OptGroup(groups, "comment")))];
    }
  }

  /** The `CM_ SG_` case: the comment goes to the named signal of the first
      message with the id. */
  method CommentSignalById(groups: Groups, data: DbcTable)
    modifies data
    ensures data.Value() == SignalCommentLine(groups, old(data.Value()))
  {
    var found := GetMessageByIdFromData(data.Value(), ParseInt(Group(groups, "id")));
    if found.Some? {
      var i := found.value;
      var msg := data.messages[i].1;
      var signal := GetSignalByNameFromMsg(msg, Group(groups, "name"));
      if signal.Some? {
        var s := signal.value.(description := OptGroup(groups, "comment"));
        data.messages := data.messages[i := (data.messages[i].0, msg.(signals := Set(msg.signals, Group(groups, "name"), s)))];
      }
    }
  }

  /** The `VAL_TABLE_` case: the table is stored by name when the database
      has a value-table map. */
  method AddValueTable(groups: Groups, data: DbcTable)
    modifies data
    ensures data.Value() == ValueTableLine(groups, old(data.Value()))
  {
    var definitions := ExtractDefinition(DefinitionGroups(groups));
    if data.valueTables.Some? {
      data.valueTables := Some(Set(data.valueTables.value, Group(groups, "name"), definitions));
    }
  }

  /** The `VAL_` case: the table goes to the named signal of the first message
      with the id. */
  method AssignValueTableById(groups: Groups, data: DbcTable)
    modifies data
    ensures data.Value() == ValueLine(groups, old(data.Value()))
  {
    ghost var before := data.Value();
    var name := Group(groups, "name");
    var definition := ExtractDefinition(DefinitionGroups(groups));
    var found := GetMessageByIdFromData(data.Value(), ParseInt(Group(groups, "id")));
    if found.Some? {
      var i := found.value;
      data.messages := data.messages[i := (data.messages[i].0, AssignToSigValTable(data.messages[i].1, name, definition))];
    }
    assert data.messages == AssignValueTable(before.messages, ParseInt(Group(groups, "id")), name, definition);
  }

  /** The `BA_DEF_` case: the attribute is generated and stored by name. */
  method DefineAttribute(groups: Groups, data: DbcTable)
    modifies data
    ensures data.Value() == AttributeDefinitionLine(groups, old(data.Value()))
  {
    var name := Group(groups, "name");
    var attr := GenerateAttribute(name, Group(groups, "type"), Group(groups, "dataType"), Group(groups, "config"));
    data.attributes := Set(data.attributes, name, attr);
  }

  /** The `BA_DEF_DEF_` case: a known attribute gets the unquoted default. */
  method SetAttributeDefaultValue(groups: Groups, data: DbcTable)
    modifies data
    ensures data.Value() == AttributeDefaultLine(groups, old(data.Value()))
  {
    var name := Group(groups, "name");
    if name != "" {
      var attr := Get(data.attributes, name);
      if attr.Some? {
        var d := Group(groups, "data");
        var a := attr.value.(value := Some(StringValue(if d != "" then RemoveAll(d, '"') else "")));
        data.attributes := Set(data.attributes, name, a);
      }
    }
  }

  /** The whole parse over a sequence of lines: each line is classified with
      `ParseLine` and applied with `ParseLineFromBaseToken`, in order. */
  method ParseLines(tokens: Tokens, lines: seq<string>, data: DbcTable)
    requires DistinctKeys(tokens)
    modifies data
    ensures data.Value() == ParseAll(tokens, lines, old(data.Value()))
    ensures old(data.Valid()) ==> data.Valid()
  {
    var i := 0;
    while i < |lines|
      invariant 0 <= i <= |lines|
      invariant ParseAll(tokens, lines[i..], data.Value()) == ParseAll(tokens, lines, old(data.Value()))
      invariant old(data.Valid()) ==> data.Valid()
    {
      var info := ParseLine(tokens, lines[i]);
      ParseLineFromBaseToken(info, data);
      assert lines[i..][1..] == lines[i + 1..];
      i := i + 1;
    }
  }
}
