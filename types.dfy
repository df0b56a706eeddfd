/** The data model of the DBC parser (src/dbc/types.ts): the database a parse
    builds, its messages, signals, value tables and attributes, the token
    registry, and the named-group records the token patterns capture. */
module DbcTypes {
  import opened Wrappers
  import opened JsMap

  /** The result of `parseInt(s, 10)`: None stands for `NaN`, which equals no number. */
  type JsInt = Option<int>

  /** The result of `parseFloat(text)`. Floating point is not modelled: the
      captured text stands for the number parsed from it. */
  datatype Float = ParseFloatOf(text: string)

  /** A number as the parser stores it in an attribute: from `parseInt` or from `parseFloat`. */
  datatype Number = IntNumber(value: JsInt) | FloatNumber(float: Float)

  /** A signal's byte order: exactly one of two variants. */
  datatype EndianType = Intel | Motorola

  /** Raw integer values mapped to labels, in insertion order. */
  type ValueTable = OMap<JsInt, string>

  datatype Signal = Signal(
    name: string,
    multiplex: Option<string>,
    startBit: JsInt,
    length: JsInt,
    endianness: EndianType,
    signed: bool,
    factor: Float,
    offset: Float,
    min: Float,
    max: Float,
    unit: string,
    receivingNodes: seq<string>,
    description: Option<string>,
    valueTable: Option<ValueTable>)

  /** A message owns its signals, filed by name in insertion order; there is no
      other signal collection anywhere in the database. */
  datatype Message = Message(
    name: string,
    id: JsInt,
    dlc: JsInt,
    sendingNode: Option<string>,
    signals: OMap<string, Signal>,
    description: Option<string>)

  /** What an attribute applies to: exactly one of four kinds. */
  datatype AttributeType = MessageAttribute | SignalAttribute | NodeAttribute | GlobalAttribute

  /** An attribute's value: a number or a string (None in `Attribute.value` is `null`). */
  datatype AttributeValue = NumberValue(number: Number) | StringValue(text: string)

  datatype Attribute = Attribute(
    name: string,
    attrType: AttributeType,
    dataType: string,
    min: Option<Number>,
    max: Option<Number>,
    enumeration: Option<seq<string>>,
    value: Option<AttributeValue>)

  type Attributes = OMap<string, Attribute>

  /** The database. None in `version`, `description`, `busConfiguration` and
      `valueTables` is `null`; `busConfiguration == Some(None)` is `NaN`. */
  datatype DbcData = DbcData(
    version: Option<string>,
    messages: OMap<string, Message>,
    description: Option<string>,
    busConfiguration: Option<JsInt>,
    canNodes: seq<string>,
    valueTables: Option<OMap<string, ValueTable>>,
    attributes: Attributes)

  /** The named groups of a successful pattern match. */
  type Groups = map<string, string>

  /** A token's pattern applied to a line: `line.match(dataFormat)`, with None
      for a failed match (`null`). The patterns themselves are not modelled. */
  type Pattern = string -> Option<Groups>

  datatype Token = Token(name: string, dataFormat: Pattern)

  /** The token registry: its keys in `Object.keys` order, each with its token. */
  type Tokens = OMap<string, Token>

  /** A group read where the source needs a string. A group the pattern did not
      capture reads as the empty string. */
  function Group(g: Groups, key: string): string {
    if key in g then g[key] else ""
  }

  /** A group read where the source stores it in a nullable field: None for a
      group the pattern did not capture (`undefined`). */
  function OptGroup(g: Groups, key: string): Option<string> {
    if key in g then Some(g[key]) else None
  }

  datatype MessageRegex = MessageRegex(messageName: string, id: string, dlc: string, sendingNode: Option<string>)

  datatype SignalRegex = SignalRegex(
    name: string, plex: Option<string>, startBit: string, length: string,
    endian: string, signed: string, factor: string, offset: string,
    min: string, max: string, unit: string, receivingNodes: string)

  datatype VersionRegex = VersionRegex(version: Option<string>)

  datatype CanConfigRegex = CanConfigRegex(speed: string)

  datatype CanNodesRegex = CanNodesRegex(nodes: string)

  datatype DefinitionRegex = DefinitionRegex(definition: string)

  function MessageGroups(g: Groups): MessageRegex {
    MessageRegex(Group(g, "messageName"), Group(g, "id"), Group(g, "dlc"), OptGroup(g, "sendingNode"))
  }

  function SignalGroups(g: Groups): SignalRegex {
    SignalRegex(
      Group(g, "name"), OptGroup(g, "plex"), Group(g, "startBit"), Group(g, "length"),
      Group(g, "endian"), Group(g, "signed"), Group(g, "factor"), Group(g, "offset"),
      Group(g, "min"), Group(g, "max"), Group(g, "unit"), Group(g, "receivingNodes"))
  }

  function VersionGroups(g: Groups): VersionRegex {
    VersionRegex(OptGroup(g, "version"))
  }

  function CanConfigGroups(g: Groups): CanConfigRegex {
    CanConfigRegex(Group(g, "speed"))
  }

  function CanNodesGroups(g: Groups): CanNodesRegex {
    CanNodesRegex(Group(g, "nodes"))
  }

  function DefinitionGroups(g: Groups): DefinitionRegex {
    DefinitionRegex(Group(g, "definition"))
  }

  /** A value table has one entry per raw value. */
  predicate ValueTableWellFormed(t: ValueTable) {
    DistinctKeys(t)
  }

  /** A signal is filed under its own name. */
  predicate SignalEntryWellFormed(key: string, s: Signal) {
    key == s.name && (s.valueTable.Some? ==> ValueTableWellFormed(s.valueTable.value))
  }

  /** A message is filed under its own name, and so is each of its signals. */
  predicate MessageEntryWellFormed(key: string, m: Message) {
    && key == m.name
    && DistinctKeys(m.signals)
    && forall i :: 0 <= i < |m.signals| ==> SignalEntryWellFormed(m.signals[i].0, m.signals[i].1)
  }

  /** The invariant every parse step keeps: each map has distinct keys and
      every named entity is filed under its own name. */
  predicate WellFormed(d: DbcData) {
    && DistinctKeys(d.messages)
    && (forall i :: 0 <= i < |d.messages| ==> MessageEntryWellFormed(d.messages[i].0, d.messages[i].1))
    && (d.valueTables.Some? ==>
          && DistinctKeys(d.valueTables.value)
          && forall i :: 0 <= i < |d.valueTables.value| ==> ValueTableWellFormed(d.valueTables.value[i].1))
    && DistinctKeys(d.attributes)
    && (forall i :: 0 <= i < |d.attributes| ==> d.attributes[i].0 == d.attributes[i].1.name)
  }
}
