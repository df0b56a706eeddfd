/** The JavaScript string built-ins and the small fixed regular expressions the
    parser applies: `trimStart`, `trim`, `startsWith`, `split(' ')`,
    `parseInt(s, 10)`, `replace(/"/g, '')`, `match(/[a-zA-Z0-9]+/g)` and
    `match(/(?<min>.*) (?<max>.*)/)`, each written out as a scanner over
    `seq<char>`. */
module JsText {
  import opened Wrappers

  /** Line terminators: the characters `.` in a regular expression does not match. */
  predicate IsLineTerminator(c: char) {
    c == '\n' || c == '\r' || c == '\U{2028}' || c == '\U{2029}'
  }

  /** The characters `trim`, `trimStart` and `parseInt` strip: ECMAScript's
      WhiteSpace (tab, vertical tab, form feed, space, no-break space, the byte
      order mark and the space separators of Unicode category Zs) and its line
      terminators. */
  predicate IsWhitespace(c: char) {
    || c == '\t' || c == '\U{000B}' || c == '\U{000C}' || c == ' '
    || c == '\U{00A0}' || c == '\U{FEFF}' || c == '\U{1680}'
    || ('\U{2000}' <= c <= '\U{200A}')
    || c == '\U{202F}' || c == '\U{205F}' || c == '\U{3000}'
    || IsLineTerminator(c)
  }

  predicate IsDigit(c: char) {
    '0' <= c <= '9'
  }

  predicate IsAlnum(c: char) {
    ('a' <= c <= 'z') || ('A' <= c <= 'Z') || IsDigit(c)
  }

  /** `s.startsWith(p)`. */
  predicate StartsWith(s: string, p: string) {
    |p| <= |s| && s[..|p|] == p
  }

  /** `s.trimStart()`: the longest suffix of `s` that does not start with whitespace. */
  function TrimStart(s: string): (r: string)
    ensures |r| <= |s| && r == s[|s| - |r|..]
    ensures forall i :: 0 <= i < |s| - |r| ==> IsWhitespace(s[i])
    ensures r == [] || !IsWhitespace(r[0])
  {
    if s != [] && IsWhitespace(s[0]) then TrimStart(s[1..]) else s
  }

  /** Whitespace removed at the end only. */
  function TrimEnd(s: string): (r: string)
    ensures |r| <= |s| && r == s[..|r|]
    ensures forall i :: |r| <= i < |s| ==> IsWhitespace(s[i])
    ensures r == [] || !IsWhitespace(r[|r| - 1])
  {
    if s != [] && IsWhitespace(s[|s| - 1]) then TrimEnd(s[..|s| - 1]) else s
  }

  /** `s.trim()`. */
  function Trim(s: string): (r: string)
    ensures r == [] || (!IsWhitespace(r[0]) && !IsWhitespace(r[|r| - 1]))
    ensures exists i, j :: 0 <= i <= j <= |s| && r == s[i..j]
  {
    var t := TrimStart(s);
    var r := TrimEnd(t);
    assert r == s[|s| - |t|..|s| - |t| + |r|];
    r
  }

  /** Leading whitespace makes no difference to `trimStart`. */
  lemma {:induction false} TrimStartOfIndented(ws: string, s: string)
    requires forall i :: 0 <= i < |ws| ==> IsWhitespace(ws[i])
    ensures TrimStart(ws + s) == TrimStart(s)
  {
    if ws != [] {
      assert (ws + s)[1..] == ws[1..] + s;
      TrimStartOfIndented(ws[1..], s);
    } else {
      assert ws + s == s;
    }
  }

  /** A string that neither starts nor ends with whitespace is its own `trim`. */
  lemma TrimOfTrimmed(s: string)
    requires s == [] || (!IsWhitespace(s[0]) && !IsWhitespace(s[|s| - 1]))
    ensures Trim(s) == s
  {
    assert TrimStart(s) == s;
    assert TrimEnd(s) == s;
  }

  /** `s.split(sep)` for a one-character separator: the pieces between
      separators, empty pieces included; the empty string gives `[""]`. */
  function Split(s: string, sep: char): (r: seq<string>)
    ensures |r| >= 1
    ensures forall i :: 0 <= i < |r| ==> sep !in r[i]
  {
    if s == [] then [""]
    else
      var rest := Split(s[1..], sep);
      if s[0] == sep then [""] + rest else [[s[0]] + rest[0]] + rest[1..]
  }

  /** `pieces.join(sep)`, the inverse of `Split`. */
  function Join(pieces: seq<string>, sep: char): string
    requires |pieces| >= 1
  {
    if |pieces| == 1 then pieces[0] else pieces[0] + [sep] + Join(pieces[1..], sep)
  }

  /** Joining the pieces of a split gives back the original string. */
  lemma {:induction false} JoinSplit(s: string, sep: char)
    ensures Join(Split(s, sep), sep) == s
  {
    if s != [] {
      JoinSplit(s[1..], sep);
      var rest := Split(s[1..], sep);
      if s[0] != sep && |rest| > 1 {
        assert Join(rest, sep) == rest[0] + [sep] + Join(rest[1..], sep);
      }
    }
  }

  /** Splitting a join of separator-free pieces gives back the pieces. */
  lemma {:induction false} SplitJoin(pieces: seq<string>, sep: char)
    requires |pieces| >= 1
    requires forall i :: 0 <= i < |pieces| ==> sep !in pieces[i]
    ensures Split(Join(pieces, sep), sep) == pieces
  {
    if |pieces| == 1 {
      SplitPiece(pieces[0], sep, []);
      assert pieces[0] + [] == pieces[0];
    } else {
      SplitJoin(pieces[1..], sep);
      SplitPiece(pieces[0], sep, [sep] + Join(pieces[1..], sep));
      assert pieces[0] + [sep] + Join(pieces[1..], sep) == pieces[0] + ([sep] + Join(pieces[1..], sep));
      assert ([sep] + Join(pieces[1..], sep))[1..] == Join(pieces[1..], sep);
      assert [pieces[0]] + pieces[1..] == pieces;
    }
  }

  /** A separator-free prefix `p` is glued to the first piece of what follows it. */
  lemma {:induction false} SplitPiece(p: string, sep: char, rest: string)
    requires sep !in p
    requires rest == [] || rest[0] == sep
    ensures rest == [] ==> Split(p + rest, sep) == [p]
    ensures rest != [] ==> Split(p + rest, sep) == [p] + Split(rest[1..], sep)
  {
    if p == [] {
      assert p + rest == rest;
    } else {
      SplitPiece(p[1..], sep, rest);
      assert (p + rest)[1..] == p[1..] + rest;
      assert (p + rest)[0] == p[0] && p[0] != sep;
      var r := Split(p[1..] + rest, sep);
      assert Split(p + rest, sep) == [[p[0]] + r[0]] + r[1..];
      assert [p[0]] + p[1..] == p;
    }
  }

  /** The number of leading decimal digits of `s`. */
  function LeadingDigits(s: string): (n: nat)
    ensures n <= |s|
    ensures forall i :: 0 <= i < n ==> IsDigit(s[i])
    ensures n < |s| ==> !IsDigit(s[n])
  {
    if s != [] && IsDigit(s[0]) then 1 + LeadingDigits(s[1..]) else 0
  }

  /** The value of a string of decimal digits, read left to right. */
  function DecimalValue(d: string): nat
    requires forall i :: 0 <= i < |d| ==> IsDigit(d[i])
  {
    if d == [] then 0 else 10 * DecimalValue(d[..|d| - 1]) + DigitValue(d[|d| - 1])
  }

  function DigitValue(c: char): (v: nat)
    requires IsDigit(c)
    ensures v < 10
  {
    c as int - '0' as int
  }

  /** `parseInt(s, 10)`: leading whitespace is skipped, then one optional sign,
      then the longest run of decimal digits is read; None stands for `NaN`,
      the result when that run is empty. What follows the run (a decimal point,
      an exponent, letters) is ignored, so `parseInt` truncates. */
  function ParseInt(s: string): Option<int> {
    var t := TrimStart(s);
    var negative := t != [] && t[0] == '-';
    var u := if t != [] && (t[0] == '-' || t[0] == '+') then t[1..] else t;
    var n := LeadingDigits(u);
    if n == 0 then None
    else
      var v: int := DecimalValue(u[..n]);
      Some(if negative then -v else v)
  }

  function DigitChar(d: nat): (c: char)
    requires d < 10
    ensures IsDigit(c)
  {
    ['0', '1', '2', '3', '4', '5', '6', '7', '8', '9'][d]
  }

  /** The decimal numeral of `n`, as `String(n)` writes it for an integer. */
  function NatToDecimal(n: nat): (d: string)
    ensures |d| >= 1
    ensures forall i :: 0 <= i < |d| ==> IsDigit(d[i])
  {
    if n < 10 then [DigitChar(n)] else NatToDecimal(n / 10) + [DigitChar(n % 10)]
  }

  function IntToDecimal(n: int): string {
    if n < 0 then "-" + NatToDecimal(-n) else NatToDecimal(n)
  }

  lemma {:induction false} DecimalValueOfNat(n: nat)
    ensures DecimalValue(NatToDecimal(n)) == n
  {
    var d := NatToDecimal(n);
    if n >= 10 {
      DecimalValueOfNat(n / 10);
      assert d[..|d| - 1] == NatToDecimal(n / 10);
    }
  }

  /** A run of digits followed by anything that is not a digit parses as the
      run alone: this is how `parseInt` truncates `"12.5"` to 12. */
  lemma {:induction false} ParseIntIgnoresTail(d: string, tail: string)
    requires |d| >= 1 && forall i :: 0 <= i < |d| ==> IsDigit(d[i])
    requires tail == [] || !IsDigit(tail[0])
    ensures ParseInt(d + tail) == Some(DecimalValue(d))
  {
    var s := d + tail;
    assert !IsWhitespace(s[0]) && s[0] != '-' && s[0] != '+';
    assert TrimStart(s) == s;
    LeadingDigitsOfRun(d, tail);
    assert s[..|d|] == d;
  }

  lemma {:induction false} LeadingDigitsOfRun(d: string, tail: string)
    requires forall i :: 0 <= i < |d| ==> IsDigit(d[i])
    requires tail == [] || !IsDigit(tail[0])
    ensures LeadingDigits(d + tail) == |d|
  {
    if d != [] {
      assert (d + tail)[1..] == d[1..] + tail;
      LeadingDigitsOfRun(d[1..], tail);
    } else {
      assert d + tail == tail;
    }
  }

  /** `parseInt` reads back every integer written in decimal. */
  lemma {:induction false} ParseIntOfDecimal(n: int)
    ensures ParseInt(IntToDecimal(n)) == Some(n)
  {
    var m: nat := if n < 0 then -n else n;
    var d := NatToDecimal(m);
    DecimalValueOfNat(m);
    if n < 0 {
      var t := "-" + d;
      assert t[1..] == d;
      forall i | 1 <= i < |t| ensures IsDigit(t[i]) {
        assert t[i] == d[i - 1];
      }
      ParseIntOfSign(t);
    } else {
      ParseIntIgnoresTail(d, []);
      assert d + [] == d;
    }
  }

  /** A minus sign and a run of digits parse as the negated run. */
  lemma ParseIntOfSign(t: string)
    requires |t| >= 2 && t[0] == '-'
    requires forall i :: 1 <= i < |t| ==> IsDigit(t[i])
    ensures ParseInt(t) == Some(-(DecimalValue(t[1..]) as int))
  {
    assert !IsWhitespace(t[0]);
    assert TrimStart(t) == t;
    var u := t[1..];
    LeadingDigitsAll(u);
    assert u[..|u|] == u;
  }

  lemma {:induction false} LeadingDigitsAll(u: string)
    requires forall i :: 0 <= i < |u| ==> IsDigit(u[i])
    ensures LeadingDigits(u) == |u|
  {
    if u != [] {
      LeadingDigitsAll(u[1..]);
    }
  }

  /** `s.replace(/c/g, '')` for a single character `c`: every occurrence removed. */
  function RemoveAll(s: string, c: char): (r: string)
    ensures c !in r
    ensures forall x :: x != c ==> multiset(r)[x] == multiset(s)[x]
  {
    if s == [] then []
    else
      assert s == [s[0]] + s[1..];
      if s[0] == c then RemoveAll(s[1..], c) else [s[0]] + RemoveAll(s[1..], c)
  }

  /** Removal works piece by piece: what is left of a concatenation is what
      is left of each part, in the same order. */
  lemma {:induction false} RemoveAllAppend(a: string, b: string, c: char)
    ensures RemoveAll(a + b, c) == RemoveAll(a, c) + RemoveAll(b, c)
  {
    if a != [] {
      assert (a + b)[0] == a[0] && (a + b)[1..] == a[1..] + b;
      RemoveAllAppend(a[1..], b, c);
    } else {
      assert a + b == b;
    }
  }

  /** A single character is dropped exactly when it is `c`, and kept otherwise. */
  lemma RemoveAllSingle(x: char, c: char)
    ensures RemoveAll([x], c) == if x == c then [] else [x]
  {
    assert [x][1..] == [];
  }

  /** Removing a character that does not occur changes nothing. */
  lemma {:induction false} RemoveAllAbsent(s: string, c: char)
    requires c !in s
    ensures RemoveAll(s, c) == s
  {
    if s != [] {
      RemoveAllAbsent(s[1..], c);
    }
  }

  /** The length of the leading run of ASCII letters and digits. */
  function LeadingAlnum(s: string): (n: nat)
    ensures n <= |s|
    ensures forall i :: 0 <= i < n ==> IsAlnum(s[i])
    ensures n < |s| ==> !IsAlnum(s[n])
  {
    if s != [] && IsAlnum(s[0]) then 1 + LeadingAlnum(s[1..]) else 0
  }

  /** The matches of `/[a-zA-Z0-9]+/g`, left to right: the maximal runs of
      ASCII letters and digits. (`match` returns `null` instead of an empty
      list; the caller makes that distinction.) */
  function AlnumRuns(s: string): (runs: seq<string>)
    ensures forall i :: 0 <= i < |runs| ==> |runs[i]| >= 1
    ensures forall i, j :: 0 <= i < |runs| && 0 <= j < |runs[i]| ==> IsAlnum(runs[i][j])
    decreases |s|
  {
    if s == [] then []
    else if !IsAlnum(s[0]) then AlnumRuns(s[1..])
    else
      var n := LeadingAlnum(s);
      [s[..n]] + AlnumRuns(s[n..])
  }

  /** Words separated by a non-alphanumeric character are found again, one
      run per word: `"A B C"` gives `["A", "B", "C"]`. */
  lemma {:induction false} AlnumRunsOfJoin(words: seq<string>, sep: char)
    requires |words| >= 1 && !IsAlnum(sep)
    requires forall i :: 0 <= i < |words| ==> |words[i]| >= 1
    requires forall i, j :: 0 <= i < |words| && 0 <= j < |words[i]| ==> IsAlnum(words[i][j])
    ensures AlnumRuns(Join(words, sep)) == words
  {
    var w := words[0];
    if |words| == 1 {
      AlnumRunThen(w, []);
      assert w + [] == w;
    } else {
      var tail := Join(words[1..], sep);
      assert Join(words, sep) == w + ([sep] + tail);
      AlnumRunThen(w, [sep] + tail);
      assert ([sep] + tail)[1..] == tail;
      AlnumRunsOfJoin(words[1..], sep);
      assert [w] + words[1..] == words;
    }
  }

  /** A run of letters and digits, then nothing or a separator, is one match
      followed by the matches after the separator. */
  lemma AlnumRunThen(w: string, rest: string)
    requires |w| >= 1 && forall i :: 0 <= i < |w| ==> IsAlnum(w[i])
    requires rest == [] || !IsAlnum(rest[0])
    ensures AlnumRuns(w + rest) == [w] + (if rest == [] then [] else AlnumRuns(rest[1..]))
  {
    var s := w + rest;
    LeadingAlnumOfRun(w, rest);
    assert s[..|w|] == w && s[|w|..] == rest;
    if rest != [] {
      assert AlnumRuns(rest) == AlnumRuns(rest[1..]);
    }
  }

  lemma {:induction false} LeadingAlnumOfRun(w: string, tail: string)
    requires |w| >= 1 && forall i :: 0 <= i < |w| ==> IsAlnum(w[i])
    requires tail == [] || !IsAlnum(tail[0])
    ensures LeadingAlnum(w + tail) == |w|
  {
    assert (w + tail)[1..] == w[1..] + tail;
    if |w| > 1 {
      LeadingAlnumOfRun(w[1..], tail);
    } else {
      assert w[1..] + tail == tail;
    }
  }

  /** The position of the first line terminator in `s`, or `|s|`. */
  function LineEnd(s: string): (e: nat)
    ensures e <= |s|
    ensures forall i :: 0 <= i < e ==> !IsLineTerminator(s[i])
    ensures e < |s| ==> IsLineTerminator(s[e])
  {
    if s == [] || IsLineTerminator(s[0]) then 0 else 1 + LineEnd(s[1..])
  }

  /** The position of the last space in `s`, if any. */
  function LastSpace(s: string): (r: Option<nat>)
    ensures r.Some? ==> r.value < |s| && s[r.value] == ' ' && ' ' !in s[r.value + 1..]
    ensures r.None? <==> ' ' !in s
  {
    if s == [] then None
    else if s[|s| - 1] == ' ' then Some(|s| - 1)
    else
      var r := LastSpace(s[..|s| - 1]);
      assert s == s[..|s| - 1] + [s[|s| - 1]];
      assert r.Some? ==> s[r.value + 1..] == s[..|s| - 1][r.value + 1..] + [s[|s| - 1]];
      r
  }

  /** `s.match(/(?<min>.*) (?<max>.*)/)?.groups`: the leftmost match lies in the
      first line-terminator-free stretch of `s` that holds a space; both `.*`
      are greedy, so `min` runs from the stretch's start to its last space and
      `max` from there to the stretch's end. None stands for a failed match. */
  function MinMaxSplit(s: string): (r: Option<(string, string)>)
    ensures r.Some? ==> ' ' !in r.value.1
    ensures r.Some? ==> forall c :: c in r.value.0 + r.value.1 ==> !IsLineTerminator(c)
    decreases |s|
  {
    var e := LineEnd(s);
    var line := s[..e];
    match LastSpace(line)
    case Some(k) =>
      assert forall c :: c in line[..k] + line[k + 1..] ==> c in line;
      Some((line[..k], line[k + 1..]))
    case None => if e == |s| then None else MinMaxSplit(s[e + 1..])
  }

  /** Two line-terminator-free fields with a single space between them, the
      second free of spaces, are split back into the two fields. */
  lemma {:induction false} MinMaxSplitOfPair(lo: string, hi: string)
    requires forall c :: c in lo ==> !IsLineTerminator(c)
    requires forall c :: c in hi ==> !IsLineTerminator(c) && c != ' '
    ensures MinMaxSplit(lo + " " + hi) == Some((lo, hi))
  {
    var s := lo + " " + hi;
    assert forall i :: 0 <= i < |s| ==> !IsLineTerminator(s[i]) by {
      forall i | 0 <= i < |s| ensures !IsLineTerminator(s[i]) {
        if i < |lo| { assert s[i] in lo; }
        else if i > |lo| { assert s[i] == hi[i - |lo| - 1] && s[i] in hi; }
      }
    }
    LineEndNone(s);
    assert s[..|s|] == s;
    assert s[|lo|] == ' ' && s[|lo| + 1..] == hi;
    assert LastSpace(s).Some?;
    assert LastSpace(s).value == |lo|;
    assert s[..|lo|] == lo;
  }

  /** Without a space the pattern fails: `min` and `max` stay null. */
  lemma {:induction false} MinMaxSplitNoSpace(s: string)
    requires ' ' !in s
    ensures MinMaxSplit(s) == None
    decreases |s|
  {
    var e := LineEnd(s);
    assert forall c :: c in s[..e] ==> c in s;
    assert LastSpace(s[..e]).None?;
    if e < |s| {
      assert forall c :: c in s[e + 1..] ==> c in s;
      MinMaxSplitNoSpace(s[e + 1..]);
    }
  }

  lemma {:induction false} LineEndNone(s: string)
    requires forall i :: 0 <= i < |s| ==> !IsLineTerminator(s[i])
    ensures LineEnd(s) == |s|
  {
    if s != [] {
      LineEndNone(s[1..]);
    }
  }
}
