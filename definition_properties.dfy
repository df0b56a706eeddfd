/** Value descriptions and attribute definitions: what `extractDefinition`
    (src/dbc/parser.ts:227-238) and `generateAttribute` (src/dbc/parser.ts:171-203)
    make of the text a DBC file writes. */
module DefinitionProperties {
  import opened Wrappers
  import opened JsMap
  import opened JsText
  import opened DbcTypes
  import opened Parser

  // ---------------------------------------------------------------------------
  // Which label a value table keeps
  // ---------------------------------------------------------------------------

  lemma DefinitionEntriesAt(matches: seq<(string, string)>, i: nat)
    requires i < |matches|
    ensures DefinitionEntries(matches)[i] == (ParseInt(matches[i].0), matches[i].1)
  {
    MapKeysAt(ParseInt, matches, i);
  }

  /** The label a value reads is the label of the last description whose
      value text parses to it. */
  lemma LastDescriptionWins(definition: string, ms: seq<(string, string)>, i: nat)
    requires ms == DefinitionMatches(definition)
    requires i < |ms|
    requires forall j :: i < j < |ms| ==> ParseInt(ms[j].0) != ParseInt(ms[i].0)
    ensures Get(DefinitionTable(definition), ParseInt(ms[i].0)) == Some(ms[i].1)
  {
    var es := DefinitionEntries(ms);
    forall j | i <= j < |ms| ensures es[j].0 == ParseInt(ms[j].0) && es[j].1 == ms[j].1 {
      DefinitionEntriesAt(ms, j);
    }
    LastValueSkipsOthers(es, i);
    SetAllGet([], es, es[i].0);
  }

  /** The table built from some matches holds exactly the values they parse to. */
  lemma EntriesTableKeys(ms: seq<(string, string)>, k: JsInt)
    ensures Has(SetAll([], DefinitionEntries(ms)), k) <==> exists i :: 0 <= i < |ms| && ParseInt(ms[i].0) == k
  {
    var es := DefinitionEntries(ms);
    SetAllGet([], es, k);
    if Has(SetAll([], es), k) {
      var i :| 0 <= i < |es| && es[i] == (k, LastValue(es, k).value);
      DefinitionEntriesAt(ms, i);
    }
    if exists i :: 0 <= i < |ms| && ParseInt(ms[i].0) == k {
      var i :| 0 <= i < |ms| && ParseInt(ms[i].0) == k;
      DefinitionEntriesAt(ms, i);
      assert es[i].0 == k;
    }
  }

  /** The table holds exactly the values some match of the blob parses to. */
  lemma ValueTableKeys(definition: string, ms: seq<(string, string)>, k: JsInt)
    requires ms == DefinitionMatches(definition)
    ensures Has(DefinitionTable(definition), k) <==> exists i :: 0 <= i < |ms| && ParseInt(ms[i].0) == k
  {
    EntriesTableKeys(ms, k);
  }

  /** Text without a double quote holds no value description: the table is empty. */
  lemma {:induction false} NoQuoteNoDescriptions(s: string)
    requires '"' !in s
    ensures DefinitionMatches(s) == []
    ensures DefinitionTable(s) == []
    decreases |s|
  {
    if s != [] {
      var n := LeadingValueChars(s);
      assert n + 1 < |s| ==> s[n + 1] in s;
      assert DefinitionAt(s).None?;
      assert forall c :: c in s[1..] ==> c in s;
      NoQuoteNoDescriptions(s[1..]);
    }
  }

  // ---------------------------------------------------------------------------
  // Writing value descriptions and reading them back
  // ---------------------------------------------------------------------------

  /** One value description as a DBC file writes it: `3 "Label"`. */
  function Description(v: int, desc: string): string {
    IntToDecimal(v) + " \"" + desc + "\""
  }

  /** Value descriptions separated by single spaces. */
  function Descriptions(entries: seq<(int, string)>): string {
    if entries == [] then ""
    else if |entries| == 1 then Description(entries[0].0, entries[0].1)
    else Description(entries[0].0, entries[0].1) + " " + Descriptions(entries[1..])
  }

  lemma DecimalValueChars(v: int)
    ensures |IntToDecimal(v)| >= 1
    ensures forall i :: 0 <= i < |IntToDecimal(v)| ==> IsValueChar(IntToDecimal(v)[i])
  {
  }

  lemma {:induction false} LeadingValueCharsOfRun(d: string, tail: string)
    requires forall i :: 0 <= i < |d| ==> IsValueChar(d[i])
    requires tail == [] || !IsValueChar(tail[0])
    ensures LeadingValueChars(d + tail) == |d|
  {
    if d != [] {
      assert (d + tail)[1..] == d[1..] + tail;
      LeadingValueCharsOfRun(d[1..], tail);
    } else {
      assert d + tail == tail;
    }
  }

  /** A label ends at the first double quote that is not escaped. */
  lemma {:induction false} ClosingQuoteOfLabel(desc: string, rest: string)
    requires LabelText(desc)
    ensures ClosingQuote(desc + "\"" + rest) == Some(|desc|)
    decreases |desc|
  {
    var s := desc + "\"" + rest;
    if desc != [] {
      assert s[0] == desc[0];
      if desc[0] == '\\' {
        assert s[1] == desc[1];
        assert s[2..] == desc[2..] + "\"" + rest;
        ClosingQuoteOfLabel(desc[2..], rest);
      } else {
        assert s[1..] == desc[1..] + "\"" + rest;
        ClosingQuoteOfLabel(desc[1..], rest);
      }
    }
  }

  /** A run of value characters, a space and a quote, then a body whose
      label closes at `k`: the pattern matches, with that value and label. */
  lemma DefinitionAtParts(d: string, body: string, k: nat)
    requires |d| >= 1 && forall i :: 0 <= i < |d| ==> IsValueChar(d[i])
    requires ClosingQuote(body) == Some(k)
    ensures DefinitionAt(d + " \"" + body) == Some((d, body[..k], body[k + 1..]))
  {
    var after := " \"" + body;
    var s := d + after;
    assert s == d + " \"" + body;
    LeadingValueCharsOfRun(d, after);
    var n := LeadingValueChars(s);
    assert n == |d| && n + 1 < |s|;
    assert s[n] == ' ' && s[n + 1] == '"';
    assert s[n + 2..] == body;
    assert s[..n] == d;
  }

  /** A written description followed by more text is the value, a space
      and a quote, then the label, its closing quote and that text. */
  lemma DescriptionSplit(v: int, desc: string, rest: string)
    ensures Description(v, desc) + rest == IntToDecimal(v) + " \"" + (desc + "\"" + rest)
  {
  }

  /** The label and what follows its closing quote, cut back out. */
  lemma LabelPieces(desc: string, rest: string)
    ensures (desc + "\"" + rest)[..|desc|] == desc
    ensures (desc + "\"" + rest)[|desc| + 1..] == rest
  {
  }

  /** The pattern matches a written description at its start and gives back
      the value text, the label and what follows. */
  lemma DefinitionAtDescription(v: int, desc: string, rest: string)
    requires LabelText(desc)
    ensures DefinitionAt(Description(v, desc) + rest) == Some((IntToDecimal(v), desc, rest))
  {
    DecimalValueChars(v);
    ClosingQuoteOfLabel(desc, rest);
    DefinitionAtParts(IntToDecimal(v), desc + "\"" + rest, |desc|);
    LabelPieces(desc, rest);
    DescriptionSplit(v, desc, rest);
  }

  /** A written description followed by a space and more text is matched
      first, and matching resumes after the space. */
  lemma MatchesOfFirstDescription(v: int, desc: string, tail: string)
    requires LabelText(desc)
    ensures DefinitionMatches(Description(v, desc) + " " + tail) == [(IntToDecimal(v), desc)] + DefinitionMatches(tail)
  {
    DefinitionAtDescription(v, desc, " " + tail);
    assert Description(v, desc) + " " + tail == Description(v, desc) + (" " + tail);
    assert DefinitionAt(" " + tail).None?;
    assert (" " + tail)[1..] == tail;
  }

  /** Written value descriptions are matched one by one, in order, each with
      its value text and its label. */
  lemma {:induction false} MatchesOfDescriptions(entries: seq<(int, string)>)
    requires forall i :: 0 <= i < |entries| ==> LabelText(entries[i].1)
    ensures |DefinitionMatches(Descriptions(entries))| == |entries|
    ensures forall i :: 0 <= i < |entries| ==>
      DefinitionMatches(Descriptions(entries))[i] == (IntToDecimal(entries[i].0), entries[i].1)
    decreases |entries|
  {
    if entries != [] {
      var v, desc := entries[0].0, entries[0].1;
      if |entries| == 1 {
        DefinitionAtDescription(v, desc, "");
        assert Description(v, desc) + "" == Description(v, desc);
      } else {
        var tail := Descriptions(entries[1..]);
        MatchesOfFirstDescription(v, desc, tail);
        MatchesOfDescriptions(entries[1..]);
        var ms := DefinitionMatches(Descriptions(entries));
        assert ms == [(IntToDecimal(v), desc)] + DefinitionMatches(tail);
        forall i | 1 <= i < |entries|
          ensures ms[i] == (IntToDecimal(entries[i].0), entries[i].1)
        {
          assert ms[i] == DefinitionMatches(tail)[i - 1];
          assert entries[i] == entries[1..][i - 1];
        }
      }
    }
  }

  /** The table written value descriptions with distinct values give: each
      value with its label, in the order written. */
  function WrittenTable(entries: seq<(int, string)>): (r: ValueTable)
    ensures |r| == |entries|
    ensures forall i :: 0 <= i < |entries| ==> r[i] == (Some(entries[i].0), entries[i].1)
  {
    seq(|entries|, i requires 0 <= i < |entries| => (Some(entries[i].0), entries[i].1))
  }

  /** Matches carrying the decimal text of each entry's value parse back to
      the written table. */
  lemma EntriesOfWritten(entries: seq<(int, string)>, ms: seq<(string, string)>)
    requires |ms| == |entries|
    requires forall i :: 0 <= i < |entries| ==> ms[i] == (IntToDecimal(entries[i].0), entries[i].1)
    ensures DefinitionEntries(ms) == WrittenTable(entries)
  {
    forall j | 0 <= j < |entries| ensures DefinitionEntries(ms)[j] == WrittenTable(entries)[j] {
      DefinitionEntriesAt(ms, j);
      ParseIntOfDecimal(entries[j].0);
    }
  }

  /** Written value descriptions are parsed back to the written table entries. */
  lemma EntriesOfDescriptions(entries: seq<(int, string)>)
    requires forall j :: 0 <= j < |entries| ==> LabelText(entries[j].1)
    ensures DefinitionEntries(DefinitionMatches(Descriptions(entries))) == WrittenTable(entries)
  {
    MatchesOfDescriptions(entries);
    EntriesOfWritten(entries, DefinitionMatches(Descriptions(entries)));
  }

  /** Reading back written value descriptions: each value reads the label of
      its last description. */
  lemma DescriptionsRoundTrip(entries: seq<(int, string)>, i: nat)
    requires forall j :: 0 <= j < |entries| ==> LabelText(entries[j].1)
    requires i < |entries|
    requires forall j :: i < j < |entries| ==> entries[j].0 != entries[i].0
    ensures Get(DefinitionTable(Descriptions(entries)), Some(entries[i].0)) == Some(entries[i].1)
  {
    var es := WrittenTable(entries);
    EntriesOfDescriptions(entries);
    LastValueSkipsOthers(es, i);
    SetAllGet([], es, es[i].0);
  }

  lemma WrittenTableDistinct(entries: seq<(int, string)>)
    requires forall i, j :: 0 <= i < j < |entries| ==> entries[i].0 != entries[j].0
    ensures DistinctKeys([] + WrittenTable(entries))
  {
    assert [] + WrittenTable(entries) == WrittenTable(entries);
  }

  /** Written value descriptions with distinct values are read back as
      exactly the entries written, in order. */
  lemma DescriptionsInOrder(entries: seq<(int, string)>)
    requires forall j :: 0 <= j < |entries| ==> LabelText(entries[j].1)
    requires forall i, j :: 0 <= i < j < |entries| ==> entries[i].0 != entries[j].0
    ensures DefinitionTable(Descriptions(entries)) == WrittenTable(entries)
  {
    EntriesOfDescriptions(entries);
    WrittenTableDistinct(entries);
    SetAllFresh([], WrittenTable(entries));
    assert [] + WrittenTable(entries) == WrittenTable(entries);
  }

  /** `0 "Off" 1 "On"` reads as the table `0 -> "Off"`, `1 -> "On"`, in that order. */
  lemma OffOnTable()
    ensures DefinitionTable("0 \"Off\" 1 \"On\"") == [(Some(0), "Off"), (Some(1), "On")]
  {
    var entries := [(0, "Off"), (1, "On")];
    assert IntToDecimal(0) == "0" && IntToDecimal(1) == "1";
    assert Descriptions(entries[1..]) == Description(1, "On");
    assert Descriptions(entries) == "0 \"Off\" 1 \"On\"";
    assert LabelText("Off") && LabelText("On") by {
      assert "Off"[1..][1..][1..] == [] && "On"[1..][1..] == [];
    }
    DescriptionsInOrder(entries);
  }

  /** An escaped quote stays escaped: `1 "a \"b\""` files the label
      `a \"b\"` with its backslashes under 1. */
  lemma EscapedQuoteKept()
    ensures DefinitionTable("1 \"a \\\"b\\\"\"") == [(Some(1), "a \\\"b\\\"")]
  {
    var text := "a \\\"b\\\"";
    assert LabelText(text) by {
      assert text[2..][2..][1..][2..] == [];
    }
    assert IntToDecimal(1) == "1";
    assert Descriptions([(1, text)]) == "1 \"a \\\"b\\\"\"";
    DescriptionsInOrder([(1, text)]);
  }

  // ---------------------------------------------------------------------------
  // Attribute definitions
  // ---------------------------------------------------------------------------

  /** Every attribute starts without a value; its kind follows the object code. */
  lemma AttributeBase(name: string, code: string, dataType: string, config: string)
    ensures AttributeOf(name, code, dataType, config).name == name
    ensures AttributeOf(name, code, dataType, config).dataType == dataType
    ensures AttributeOf(name, code, dataType, config).attrType == CreateAttributeType(code)
    ensures AttributeOf(name, code, dataType, config).value.None?
  {
  }

  /** An `ENUM` definition listing its words separated by spaces gets exactly
      those words as its enumeration, and no bounds. */
  lemma EnumAttribute(name: string, code: string, words: seq<string>)
    requires |words| >= 1
    requires forall i :: 0 <= i < |words| ==> |words[i]| >= 1
    requires forall i, j :: 0 <= i < |words| && 0 <= j < |words[i]| ==> IsAlnum(words[i][j])
    ensures AttributeOf(name, code, "ENUM", Join(words, ' ')).enumeration == Some(words)
    ensures AttributeOf(name, code, "ENUM", Join(words, ' ')).min.None?
    ensures AttributeOf(name, code, "ENUM", Join(words, ' ')).max.None?
  {
    AlnumRunsOfJoin(words, ' ');
    assert words[0][0] == Join(words, ' ')[0];
  }

  /** An `INT` definition `lo hi` gets `lo` and `hi` as its bounds, read back
      with `parseInt`, and no enumeration. */
  lemma IntAttribute(name: string, code: string, lo: int, hi: int)
    ensures AttributeOf(name, code, "INT", IntToDecimal(lo) + " " + IntToDecimal(hi)).min == Some(IntNumber(Some(lo)))
    ensures AttributeOf(name, code, "INT", IntToDecimal(lo) + " " + IntToDecimal(hi)).max == Some(IntNumber(Some(hi)))
    ensures AttributeOf(name, code, "INT", IntToDecimal(lo) + " " + IntToDecimal(hi)).enumeration.None?
  {
    var a, b := IntToDecimal(lo), IntToDecimal(hi);
    DecimalValueChars(lo);
    DecimalValueChars(hi);
    assert forall c :: c in a ==> !IsLineTerminator(c);
    assert forall c :: c in b ==> !IsLineTerminator(c) && c != ' ';
    MinMaxSplitOfPair(a, b);
    ParseIntOfDecimal(lo);
    ParseIntOfDecimal(hi);
  }

  /** A `FLOAT` definition `lo hi` gets its bounds through `parseFloat`. */
  lemma FloatAttributeBounds(name: string, code: string, lo: int, hi: int)
    ensures AttributeOf(name, code, "FLOAT", IntToDecimal(lo) + " " + IntToDecimal(hi)).min ==
      Some(FloatNumber(ParseFloatOf(IntToDecimal(lo))))
    ensures AttributeOf(name, code, "FLOAT", IntToDecimal(lo) + " " + IntToDecimal(hi)).max ==
      Some(FloatNumber(ParseFloatOf(IntToDecimal(hi))))
  {
    var a, b := IntToDecimal(lo), IntToDecimal(hi);
    DecimalValueChars(lo);
    DecimalValueChars(hi);
    assert forall c :: c in a ==> !IsLineTerminator(c);
    assert forall c :: c in b ==> !IsLineTerminator(c) && c != ' ';
    MinMaxSplitOfPair(a, b);
  }

  /** Because the `FLOAT` case falls through into `ENUM`'s, a `FLOAT`
      definition `lo hi` also gets an enumeration: the digit runs of its
      config, here the two bounds as written. */
  lemma FloatAttributeAlsoEnumerates(name: string, code: string, lo: nat, hi: nat)
    ensures AttributeOf(name, code, "FLOAT", NatToDecimal(lo) + " " + NatToDecimal(hi)).enumeration ==
      Some([NatToDecimal(lo), NatToDecimal(hi)])
  {
    var config := NatToDecimal(lo) + " " + NatToDecimal(hi);
    FloatEnumeration(name, code, config);
    BoundsRuns(lo, hi);
  }

  /** A `FLOAT` attribute with a config enumerates the config's alphanumeric runs. */
  lemma FloatEnumeration(name: string, code: string, config: string)
    requires config != ""
    ensures AttributeOf(name, code, "FLOAT", config).enumeration ==
      if AlnumRuns(config) == [] then None else Some(AlnumRuns(config))
  {
  }

  /** The alphanumeric runs of `lo hi` are the two bounds as written. */
  lemma BoundsRuns(lo: nat, hi: nat)
    ensures AlnumRuns(NatToDecimal(lo) + " " + NatToDecimal(hi)) == [NatToDecimal(lo), NatToDecimal(hi)]
  {
    var a, b := NatToDecimal(lo), NatToDecimal(hi);
    var words := [a, b];
    assert forall i, j :: 0 <= i < |words| && 0 <= j < |words[i]| ==> IsAlnum(words[i][j]);
    AlnumRunsOfJoin(words, ' ');
    assert Join(words, ' ') == a + " " + b;
  }

  /** A config without a space fails the `min max` pattern: `INT` and `FLOAT`
      definitions keep null bounds. */
  lemma NoSpaceNoBounds(name: string, code: string, dataType: string, config: string)
    requires ' ' !in config
    ensures AttributeOf(name, code, dataType, config).min.None?
    ensures AttributeOf(name, code, dataType, config).max.None?
  {
    MinMaxSplitNoSpace(config);
  }

  /** Data types other than `INT`, `FLOAT` and `ENUM` (and an empty config)
      leave bounds and enumeration null. */
  lemma OtherDataTypesPlain(name: string, code: string, dataType: string, config: string)
    requires dataType !in {"INT", "FLOAT", "ENUM"} || config == ""
    ensures AttributeOf(name, code, dataType, config) ==
      Attribute(name, CreateAttributeType(code), dataType, None, None, None, None)
  {
  }
}
