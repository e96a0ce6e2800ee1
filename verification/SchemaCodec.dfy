/** ASCII text for a list of schema rows: quoted cells in arrays, and each row quoted again inside one outer array. */
module SchemaCodec {
  import opened Common

  const UPPER_HEX := "0123456789ABCDEF"

  function Hex(d: nat): char
    requires d < 16
  {
    UPPER_HEX[d]
  }

  /** The short escapes of section 7 of RFC 8259 that the writer uses. */
  function ShortEscape(c: char): Option<char> {
    match c as int
    case 8 => Some('b')
    case 9 => Some('t')
    case 10 => Some('n')
    case 12 => Some('f')
    case 13 => Some('r')
    case 92 => Some('\\')
    case _ => None
  }

  predicate NeedsCode(c: char) { c as int < 32 || c as int == 127 || c in ['"', '&', '\'', '+', '<', '>', '`'] }

  function QuoteChar(c: char): string
    requires c as int < 128
  {
    if ShortEscape(c).Some? then ['\\', ShortEscape(c).value]
    else if NeedsCode(c) then ['\\', 'u', '0', '0', Hex(c as int / 16), Hex(c as int % 16)]
    else [c]
  }

  function Body(value: string): string
    requires IsAscii(value)
    decreases |value|
  {
    if value == [] then []
    else
      assert IsAscii(value[..|value| - 1]);
      Body(value[..|value| - 1]) + QuoteChar(value[|value| - 1])
  }

  function Quoted(value: string): string
    requires IsAscii(value)
  {
    ['"'] + Body(value) + ['"']
  }

  /** Escapes one string; None for anything outside ASCII. */
  method Quote(value: string) returns (text: Option<string>)
    ensures text == if IsAscii(value) then Some(Quoted(value)) else None
  {
    hide QuoteChar;
    if !IsAscii(value) { return None; }
    var result := ['"'];
    var i := 0;
    while i < |value|
      invariant 0 <= i <= |value| && IsAscii(value[..i]) && result == ['"'] + Body(value[..i])
    {
      assert value[..i + 1][..i] == value[..i];
      result := result + QuoteChar(value[i]);
      i := i + 1;
    }
    assert value[..i] == value;
    return Some(result + ['"']);
  }

  // ---- Reading a quoted string ----

  function HexValue(c: char): Option<nat> {
    if '0' <= c <= '9' then Some(c as int - '0' as int)
    else if 'A' <= c <= 'F' then Some(c as int - 'A' as int + 10)
    else if 'a' <= c <= 'f' then Some(c as int - 'a' as int + 10)
    else None
  }

  function ShortMeaning(c: char): Option<char> {
    match c
    case 'b' => Some(8 as char)
    case 't' => Some(9 as char)
    case 'n' => Some(10 as char)
    case 'f' => Some(12 as char)
    case 'r' => Some(13 as char)
    case '"' => Some('"')
    case '\\' => Some('\\')
    case '/' => Some('/')
    case _ => None
  }

  function Code(a: char, b: char, c: char, d: char): Option<char> {
    var w, x, y, z := HexValue(a), HexValue(b), HexValue(c), HexValue(d);
    if w.None? || x.None? || y.None? || z.None? then None
    else
      var n := w.value * 4096 + x.value * 256 + y.value * 16 + z.value;
      if n < 0xD800 then Some(n as char) else None
  }

  /** One character of a string body and how much text it took; section 7 of RFC 8259. */
  function ReadChar(text: string): (r: Option<(char, nat)>)
    ensures r.Some? ==> 0 < r.value.1 <= |text|
  {
    if text == [] || text[0] == '"' then None
    else if text[0] != '\\' then Some((text[0], 1))
    else if |text| < 2 then None
    else if ShortMeaning(text[1]).Some? then Some((ShortMeaning(text[1]).value, 2))
    else if text[1] == 'u' && |text| >= 6 && Code(text[2], text[3], text[4], text[5]).Some? then
      Some((Code(text[2], text[3], text[4], text[5]).value, 6))
    else None
  }

  /** The rest of a string body up to its closing quote, and the text after that. */
  function ReadBody(text: string): Option<(string, string)>
    decreases |text|
  {
    if text != [] && text[0] == '"' then Some(([], text[1..]))
    else
      var c := ReadChar(text);
      if c.None? then None
      else
        var more := ReadBody(text[c.value.1..]);
        if more.None? then None else Some(([c.value.0] + more.value.0, more.value.1))
  }

  function ReadString(text: string): Option<(string, string)> {
    if text == [] || text[0] != '"' then None else ReadBody(text[1..])
  }

  lemma HexReadsBack(d: nat)
    requires d < 16
    ensures HexValue(Hex(d)) == Some(d)
  {
  }

  lemma CodeReadsBack(n: nat)
    requires n < 128
    ensures Code('0', '0', Hex(n / 16), Hex(n % 16)) == Some(n as char)
  {
    hide Hex;
    HexReadsBack(n / 16);
    HexReadsBack(n % 16);
  }

  lemma ReadsCharBack(c: char, rest: string)
    requires c as int < 128
    ensures QuoteChar(c) != [] && QuoteChar(c)[0] != '"'
    ensures ReadChar(QuoteChar(c) + rest) == Some((c, |QuoteChar(c)|))
  {
    hide Hex, Code;
    CodeReadsBack(c as int);
    var text := QuoteChar(c) + rest;
    if ShortEscape(c).Some? {
      assert text[0] == '\\' && text[1] == ShortEscape(c).value;
    } else if NeedsCode(c) {
      assert text[0] == '\\' && text[1] == 'u' && text[2] == '0' && text[3] == '0';
      assert text[4] == Hex(c as int / 16) && text[5] == Hex(c as int % 16);
    }
  }

  lemma {:induction false} BodySplits(c: char, value: string)
    requires c as int < 128 && IsAscii(value)
    ensures IsAscii([c] + value) && Body([c] + value) == QuoteChar(c) + Body(value)
    decreases |value|
  {
    if value == [] {
      assert ([c] + value)[..0] == [] && ([c] + value)[0] == c;
      assert Body([c] + value) == [] + QuoteChar(c);
    } else {
      var less, last := value[..|value| - 1], value[|value| - 1];
      assert ([c] + value)[..|value|] == [c] + less && ([c] + value)[|value|] == last;
      BodySplits(c, less);
      assert QuoteChar(c) + Body(less) + QuoteChar(last) == QuoteChar(c) + (Body(less) + QuoteChar(last));
    }
  }

  lemma {:induction false} ReadsBodyBack(value: string, rest: string)
    requires IsAscii(value)
    ensures ReadBody(Body(value) + ['"'] + rest) == Some((value, rest))
    decreases |value|
  {
    hide QuoteChar, ReadChar;
    if value == [] {
      assert Body(value) + ['"'] + rest == ['"'] + rest;
    } else {
      var c, tail := value[0], value[1..];
      assert value == [c] + tail;
      BodySplits(c, tail);
      var text := Body(value) + ['"'] + rest;
      var after := Body(tail) + ['"'] + rest;
      assert text == QuoteChar(c) + after;
      ReadsCharBack(c, after);
      assert text[|QuoteChar(c)|..] == after;
      ReadsBodyBack(tail, rest);
    }
  }

  /** A quoted string is read back exactly, whatever text follows it. */
  lemma ReadInvertsQuote(value: string, rest: string)
    requires IsAscii(value)
    ensures ReadString(Quoted(value) + rest) == Some((value, rest))
  {
    assert (Quoted(value) + rest)[1..] == Body(value) + ['"'] + rest;
    ReadsBodyBack(value, rest);
  }

  /** So no quoted string is a prefix of another, and equal texts quote equal strings. */
  lemma QuotingIsUniquelyDecodable(a: string, b: string, x: string, y: string)
    requires IsAscii(a) && IsAscii(b) && Quoted(a) + x == Quoted(b) + y
    ensures a == b && x == y
  {
    ReadInvertsQuote(a, x);
    ReadInvertsQuote(b, y);
  }

  predicate Plain(c: char) { 32 <= c as int < 127 && c !in ['&', '\'', '+', '<', '>', '`'] }

  /** The output is printable ASCII without the characters the writer is told to avoid. */
  lemma {:induction false} QuotedIsPlain(value: string)
    requires IsAscii(value)
    ensures forall i | 0 <= i < |Body(value)| :: Plain(Body(value)[i])
    ensures IsAscii(Quoted(value))
    decreases |value|
  {
    if value != [] {
      QuotedIsPlain(value[..|value| - 1]);
      CharIsPlain(value[|value| - 1]);
    }
  }

  lemma CharIsPlain(c: char)
    requires c as int < 128
    ensures forall i | 0 <= i < |QuoteChar(c)| :: Plain(QuoteChar(c)[i])
  {
    if ShortEscape(c).None? && NeedsCode(c) {
      assert Plain(Hex(c as int / 16)) && Plain(Hex(c as int % 16)) by {
        HexIsPlain(c as int / 16); HexIsPlain(c as int % 16);
      }
    }
  }

  lemma HexIsPlain(d: nat)
    requires d < 16
    ensures Plain(Hex(d))
  {
  }

  // ---- Arrays ----

  predicate AllAscii(values: seq<string>) { forall i | 0 <= i < |values| :: IsAscii(values[i]) }

  function Items(values: seq<string>): string
    requires AllAscii(values)
  {
    if |values| == 0 then []
    else if |values| == 1 then Quoted(values[0])
    else Quoted(values[0]) + [','] + Items(values[1..])
  }

  function Serialized(values: seq<string>): string
    requires AllAscii(values)
  {
    ['['] + Items(values) + [']']
  }

  /** One or more quoted strings separated by commas, up to the closing bracket. */
  function ReadItems(text: string): Option<(seq<string>, string)>
    decreases |text|
  {
    var first := ReadString(text);
    if first.None? || |first.value.1| >= |text| || first.value.1 == [] then None
    else if first.value.1[0] == ']' then Some(([first.value.0], first.value.1[1..]))
    else if first.value.1[0] != ',' then None
    else
      var more := ReadItems(first.value.1[1..]);
      if more.None? then None else Some(([first.value.0] + more.value.0, more.value.1))
  }

  function ReadArray(text: string): Option<(seq<string>, string)> {
    if text == [] || text[0] != '[' then None
    else if |text| > 1 && text[1] == ']' then Some(([], text[2..]))
    else ReadItems(text[1..])
  }

  lemma {:induction false} ReadsItemsBack(values: seq<string>, rest: string)
    requires AllAscii(values) && |values| > 0
    ensures ReadItems(Items(values) + [']'] + rest) == Some((values, rest))
    decreases |values|
  {
    var text := Items(values) + [']'] + rest;
    if |values| == 1 {
      var after := [']'] + rest;
      assert text == Quoted(values[0]) + after;
      ReadInvertsQuote(values[0], after);
      assert after[1..] == rest && values == [values[0]];
    } else {
      var after := [','] + (Items(values[1..]) + [']'] + rest);
      assert text == Quoted(values[0]) + after;
      ReadInvertsQuote(values[0], after);
      assert after[1..] == Items(values[1..]) + [']'] + rest;
      ReadsItemsBack(values[1..], rest);
      assert values == [values[0]] + values[1..];
    }
  }

  lemma ReadInvertsSerialized(values: seq<string>, rest: string)
    requires AllAscii(values)
    ensures ReadArray(Serialized(values) + rest) == Some((values, rest))
  {
    var text := Serialized(values) + rest;
    if values == [] {
      assert text == ['[', ']'] + rest;
      assert text[2..] == rest;
    } else {
      assert text[1..] == Items(values) + [']'] + rest;
      assert Items(values)[0] == '"';
      ReadsItemsBack(values, rest);
    }
  }

  // ---- Schema rows ----

  /** A cell of sqlite_master: NULL or text. */
  type SchemaRow = seq<Option<string>>

  function CellText(cell: Option<string>): string { if cell.None? then "null:" else "text:" + cell.value }

  function CellTexts(row: SchemaRow): seq<string> { seq(|row|, i requires 0 <= i < |row| => CellText(row[i])) }

  predicate Admitted(row: SchemaRow) { |row| == 4 && row[0] != Some("trigger") && AllAscii(CellTexts(row)) }

  function RowText(row: SchemaRow): string
    requires Admitted(row)
  {
    Serialized(CellTexts(row))
  }

  predicate AllAdmitted(rows: seq<SchemaRow>) { forall i | 0 <= i < |rows| :: Admitted(rows[i]) }

  function RowTexts(rows: seq<SchemaRow>): seq<string>
    requires AllAdmitted(rows)
  {
    seq(|rows|, i requires 0 <= i < |rows| => RowText(rows[i]))
  }

  lemma {:induction false} ItemsAreAscii(values: seq<string>)
    requires AllAscii(values)
    ensures IsAscii(Items(values))
    decreases |values|
  {
    if |values| > 0 {
      QuotedIsPlain(values[0]);
      ItemsAreAscii(values[1..]);
    }
  }

  lemma RowTextsAreAscii(rows: seq<SchemaRow>)
    requires AllAdmitted(rows)
    ensures AllAscii(RowTexts(rows))
  {
    forall i | 0 <= i < |rows|
      ensures IsAscii(RowTexts(rows)[i])
    {
      ItemsAreAscii(CellTexts(rows[i]));
    }
  }

  /** The text whose SHA-256 identifies a schema; None when a row is refused. */
  method SchemaText(rows: seq<SchemaRow>) returns (text: Option<string>)
    ensures text.Some? <==> AllAdmitted(rows)
    ensures text.Some? ==> AllAscii(RowTexts(rows)) && text.value == Serialized(RowTexts(rows))
  {
    hide RowText, Admitted, Items;
    var schema: seq<string> := [];
    var i := 0;
    while i < |rows|
      invariant 0 <= i <= |rows| && AllAdmitted(rows[..i]) && schema == RowTexts(rows[..i])
    {
      if !Admitted(rows[i]) { return None; }
      assert forall k | 0 <= k < i :: rows[..i][k] == rows[..i + 1][k];
      schema := schema + [RowText(rows[i])];
      i := i + 1;
      assert schema == RowTexts(rows[..i]);
    }
    assert rows[..i] == rows;
    RowTextsAreAscii(rows);
    return Some(Serialized(schema));
  }

  // ---- Reading rows ----

  function ReadCell(text: string): Option<Option<string>> {
    if text == "null:" then Some(None) else if |text| >= 5 && text[..5] == "text:" then Some(Some(text[5..])) else None
  }

  /** A NULL cell and the text "null:" stay apart. */
  lemma ReadInvertsCell(cell: Option<string>)
    ensures ReadCell(CellText(cell)) == Some(cell)
  {
    if cell.Some? { assert CellText(cell)[0] == 't' && CellText(cell)[..5] == "text:"; }
  }

  lemma RowDetermined(a: SchemaRow, b: SchemaRow)
    requires Admitted(a) && Admitted(b) && RowText(a) == RowText(b)
    ensures a == b
  {
    ReadInvertsSerialized(CellTexts(a), []);
    ReadInvertsSerialized(CellTexts(b), []);
    assert RowText(a) + [] == RowText(b) + [];
    forall i | 0 <= i < 4
      ensures a[i] == b[i]
    {
      assert CellTexts(a)[i] == CellTexts(b)[i];
      ReadInvertsCell(a[i]);
      ReadInvertsCell(b[i]);
    }
  }

  /** Different schemas never share their text, so while SHA-256 does not collide they never share their hash. */
  lemma SchemaDetermined(a: seq<SchemaRow>, b: seq<SchemaRow>)
    requires AllAdmitted(a) && AllAdmitted(b) && AllAscii(RowTexts(a)) && AllAscii(RowTexts(b))
    ensures Serialized(RowTexts(a)) == Serialized(RowTexts(b)) <==> a == b
  {
    if Serialized(RowTexts(a)) == Serialized(RowTexts(b)) {
      ReadInvertsSerialized(RowTexts(a), []);
      ReadInvertsSerialized(RowTexts(b), []);
      assert Serialized(RowTexts(a)) + [] == Serialized(RowTexts(b)) + [];
      assert |a| == |RowTexts(a)| == |b|;
      forall i | 0 <= i < |a|
        ensures a[i] == b[i]
      {
        assert RowTexts(a)[i] == RowTexts(b)[i];
        RowDetermined(a[i], b[i]);
      }
    }
  }

  // ---- Fractions of a second ----

  /** `n` as `k` decimal digits with leading zeros. */
  function Digits(n: nat, k: nat): (s: string)
    ensures |s| == k
    decreases k
  {
    if k == 0 then [] else Digits(n / 10, k - 1) + [('0' as int + n % 10) as char]
  }

  function Stripped(s: string): string
    decreases |s|
  {
    if s != [] && s[|s| - 1] == '0' then Stripped(s[..|s| - 1]) else s
  }

  /** What follows the seconds in a file time: nothing, or a point and tenths of microseconds without trailing zeros. */
  function Suffix(nanoseconds: nat): string {
    var fraction := Stripped(Digits(nanoseconds / 100, 7));
    if fraction == [] then [] else ['.'] + fraction
  }

  function Padded(s: string, k: nat): string { if |s| >= k then s else s + seq(k - |s|, _ => '0') }

  function Value(s: string): int
    decreases |s|
  {
    if s == [] then 0 else Value(s[..|s| - 1]) * 10 + (s[|s| - 1] as int - '0' as int)
  }

  function ReadSuffix(suffix: string): int { Value(Padded(if suffix == [] then [] else suffix[1..], 7)) }

  function Power(k: nat): nat { if k == 0 then 1 else 10 * Power(k - 1) }

  lemma {:induction false} DigitsHaveValue(n: nat, k: nat)
    requires n < Power(k)
    ensures Value(Digits(n, k)) == n
    decreases k
  {
    if k > 0 {
      DigitsHaveValue(n / 10, k - 1);
      var s := Digits(n, k);
      assert s[..|s| - 1] == Digits(n / 10, k - 1);
    }
  }

  lemma {:induction false} PaddingRestores(s: string)
    ensures |Stripped(s)| <= |s| && Padded(Stripped(s), |s|) == s
    ensures Stripped(s) != [] ==> Stripped(s)[|Stripped(s)| - 1] != '0'
    decreases |s|
  {
    if s != [] && s[|s| - 1] == '0' {
      var less := s[..|s| - 1];
      PaddingRestores(less);
      var core := Stripped(less);
      assert s == less + ['0'];
      assert core + seq(|s| - |core|, _ => '0') == core + seq(|less| - |core|, _ => '0') + ['0'];
    } else {
      assert Padded(s, |s|) == s;
    }
  }

  /** The suffix keeps exactly the tenths of microseconds. */
  lemma SuffixKeepsTicks(nanoseconds: nat)
    requires nanoseconds < 1_000_000_000
    ensures ReadSuffix(Suffix(nanoseconds)) == nanoseconds / 100
    ensures Suffix(nanoseconds) == [] <==> nanoseconds < 100
  {
    var ticks := nanoseconds / 100;
    var digits := Digits(ticks, 7);
    assert Power(7) == 10_000_000;
    DigitsHaveValue(ticks, 7);
    PaddingRestores(digits);
    assert Suffix(nanoseconds) != [] ==> Suffix(nanoseconds)[1..] == Stripped(digits);
    if Stripped(digits) == [] { ZerosAreZero(7); assert digits == seq(7, _ => '0'); }
    if ticks == 0 { ZeroStrips(7); }
  }

  lemma {:induction false} ZerosAreZero(k: nat)
    ensures Value(seq(k, _ => '0')) == 0
  {
    if k > 0 {
      ZerosAreZero(k - 1);
      assert seq(k, _ => '0')[..k - 1] == seq(k - 1, _ => '0');
    }
  }

  lemma {:induction false} ZeroStrips(k: nat)
    ensures Stripped(Digits(0, k)) == []
  {
    if k > 0 {
      ZeroStrips(k - 1);
      assert Digits(0, k)[..k - 1] == Digits(0, k - 1);
    }
  }
}
