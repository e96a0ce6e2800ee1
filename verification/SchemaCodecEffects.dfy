/** The serialised text once more, character by character, and the fraction of a second, digit by digit. */
module SchemaCodecEffects {
  import opened Common
  import opened SchemaCodec

  // ---- Characters ----

  /** The two upper-case hexadecimal digits of a code below 256. */
  predicate HexPair(hi: char, lo: char, n: int) {
    && (('0' <= hi <= '9' && hi as int - 48 == n / 16) || ('A' <= hi <= 'F' && hi as int - 55 == n / 16))
    && (('0' <= lo <= '9' && lo as int - 48 == n % 16) || ('A' <= lo <= 'F' && lo as int - 55 == n % 16))
  }

  predicate Coded(c: char) {
    || c as int < 32 || c as int == 127
    || c == '"' || c == '&' || c == '\'' || c == '+' || c == '<' || c == '>' || c == '`'
  }

  /** How each character is written: six short escapes, a code for the rest of the avoided ones, itself otherwise. */
  lemma CharExactly(c: char)
    requires c as int < 128
    ensures c == '\t' ==> QuoteChar(c) == "\\t"
    ensures c == '\n' ==> QuoteChar(c) == "\\n"
    ensures c == '\r' ==> QuoteChar(c) == "\\r"
    ensures c == '\\' ==> QuoteChar(c) == "\\\\"
    ensures c as int == 8 ==> QuoteChar(c) == "\\b"
    ensures c as int == 12 ==> QuoteChar(c) == "\\f"
    ensures Coded(c) && c as int !in {8, 9, 10, 12, 13} ==>
              |QuoteChar(c)| == 6 && QuoteChar(c)[..4] == "\\u00" && HexPair(QuoteChar(c)[4], QuoteChar(c)[5], c as int)
    ensures !Coded(c) && c != '\\' ==> QuoteChar(c) == [c]
  {
    if Coded(c) && c as int !in {8, 9, 10, 12, 13} {
      HexIs(c as int / 16);
      HexIs(c as int % 16);
      hide Hex;
    }
  }

  lemma HexIs(d: nat)
    requires d < 16
    ensures (d < 10 && Hex(d) as int == 48 + d) || (d >= 10 && Hex(d) as int == 55 + d)
  {
  }

  // ---- Strings, arrays and rows ----

  /** A quoted string is its characters, each written for itself, between two quotation marks. */
  lemma {:induction false} QuotedExactly(a: string, c: char)
    requires IsAscii(a) && c as int < 128
    ensures Quoted("") == "\"\""
    ensures IsAscii(a + [c]) && Quoted(a + [c]) == Quoted(a)[..|Quoted(a)| - 1] + QuoteChar(c) + "\""
  {
    assert (a + [c])[..|a|] == a;
    hide QuoteChar;
    assert Quoted(a)[..|Quoted(a)| - 1] == ['"'] + Body(a);
    assert Quoted(a + [c]) == ['"'] + (Body(a) + QuoteChar(c)) + ['"'];
  }

  /** An array is its quoted strings with commas between them, in brackets. */
  lemma {:induction false} ArrayExactly(values: seq<string>, last: string)
    requires AllAscii(values) && IsAscii(last)
    ensures Serialized([]) == "[]" && Serialized([last]) == "[" + Quoted(last) + "]"
    ensures AllAscii(values + [last])
    ensures values != [] ==>
              Serialized(values + [last]) == Serialized(values)[..|Serialized(values)| - 1] + "," + Quoted(last) + "]"
  {
    if values != [] {
      ItemsGrow(values, last);
      hide Items;
      assert Serialized(values)[..|Serialized(values)| - 1] == ['['] + Items(values);
      Regrouped(Items(values), Quoted(last));
    }
  }

  lemma {:induction false} Regrouped(items: string, last: string)
    ensures ['['] + (items + [','] + last) + [']'] == ['['] + items + "," + last + "]"
  {
  }

  lemma {:induction false} ItemsGrow(values: seq<string>, last: string)
    requires AllAscii(values) && IsAscii(last) && values != []
    ensures AllAscii(values + [last]) && Items(values + [last]) == Items(values) + [','] + Quoted(last)
    decreases |values|
  {
    hide Quoted, IsAscii;
    if |values| == 1 {
      assert (values + [last])[1..] == [last];
    } else {
      assert (values + [last])[1..] == values[1..] + [last];
      ItemsGrow(values[1..], last);
    }
  }

  /** A row is written when it has four cells, is not a trigger's and is ASCII throughout: NULL and text cells apart. */
  lemma RowExactly(row: SchemaRow)
    ensures Admitted(row) <==>
            && |row| == 4 && row[0] != Some("trigger")
            && forall i | 0 <= i < 4 && row[i].Some? :: forall c | c in row[i].value :: c as int < 128
    ensures Admitted(row) ==>
              && AllAscii([Cell(row[0]), Cell(row[1]), Cell(row[2]), Cell(row[3])])
              && RowText(row) == Serialized([Cell(row[0]), Cell(row[1]), Cell(row[2]), Cell(row[3])])
  {
    forall cell: Option<string>
      ensures CellText(cell) == Cell(cell)
      ensures IsAscii(CellText(cell)) <==> cell.None? || forall c | c in cell.value :: c as int < 128
    {
      CellIsAscii(cell);
    }
    hide CellText, Cell;
    if |row| == 4 {
      assert CellTexts(row) == [Cell(row[0]), Cell(row[1]), Cell(row[2]), Cell(row[3])];
      assert forall i | 0 <= i < 4 :: CellTexts(row)[i] == CellText(row[i]);
    }
    hide Serialized;
  }

  function Cell(cell: Option<string>): string {
    match cell
    case None => "null:"
    case Some(text) => "text:" + text
  }

  lemma {:induction false} CellIsAscii(cell: Option<string>)
    ensures CellText(cell) == Cell(cell)
    ensures IsAscii(CellText(cell)) <==> cell.None? || forall c | c in cell.value :: c as int < 128
  {
    if cell.Some? {
      var text, value := CellText(cell), cell.value;
      assert text == "text:" + value;
      if IsAscii(text) {
        forall c | c in value ensures c as int < 128 {
          var i :| 0 <= i < |value| && value[i] == c;
          assert text[i + 5] == c && text[i + 5] < 128 as char;
        }
      }
      if forall c | c in value :: c as int < 128 {
        forall i | 0 <= i < |text| ensures text[i] < 128 as char {
          if i >= 5 { assert text[i] == value[i - 5] && value[i - 5] in value; }
        }
      }
    }
  }

  // ---- The fraction of a second ----

  /** The number a run of decimal digits stands for. */
  function Number(s: string): int {
    if s == "" then 0 else 10 * Number(s[..|s| - 1]) + (s[|s| - 1] as int - 48)
  }

  function TenTo(k: nat): nat { if k == 0 then 1 else 10 * TenTo(k - 1) }

  lemma {:induction false} NumberIsValue(s: string)
    ensures Number(s) == Value(s)
  {
    if s != "" { NumberIsValue(s[..|s| - 1]); }
  }

  lemma TenTimes(a: int, b: int)
    ensures 10 * (a * b) == a * (10 * b)
  {
  }

  lemma {:induction false} PaddedNumber(s: string, k: nat)
    requires |s| <= k
    ensures Number(Padded(s, k)) == Number(s) * TenTo(k - |s|)
    decreases k
  {
    if k > |s| {
      PaddedNumber(s, k - 1);
      var less := Padded(s, k - 1);
      assert Padded(s, k) == less + "0";
      assert (less + "0")[..k - 1] == less && (less + "0")[k - 1] == '0';
      hide Padded;
      assert Number(less + "0") == 10 * Number(less);
      TenTimes(Number(s), TenTo(k - 1 - |s|));
    } else {
      assert Padded(s, k) == s;
    }
  }

  lemma {:induction false} DigitsAreDigits(n: nat, k: nat)
    ensures forall i | 0 <= i < k :: '0' <= Digits(n, k)[i] <= '9'
  {
    if k > 0 { DigitsAreDigits(n / 10, k - 1); }
  }

  lemma {:induction false} StrippedBegins(s: string)
    ensures Stripped(s) <= s
    decreases |s|
  {
    if s != [] && s[|s| - 1] == '0' { StrippedBegins(s[..|s| - 1]); }
  }

  /** After the seconds stands nothing for less than a tenth of a microsecond, and otherwise a point and at most seven
      digits, the last not zero, that stand for exactly the whole tenths of microseconds. */
  lemma SuffixExactly(nanoseconds: nat)
    requires nanoseconds < 1_000_000_000
    ensures var s := Suffix(nanoseconds);
            && (nanoseconds < 100 ==> s == "")
            && (nanoseconds >= 100 ==>
                  && 2 <= |s| <= 8 && s[0] == '.' && s[|s| - 1] != '0'
                  && (forall i | 1 <= i < |s| :: '0' <= s[i] <= '9')
                  && Number(s[1..]) * TenTo(8 - |s|) == nanoseconds / 100)
  {
    SuffixKeepsTicks(nanoseconds);
    var digits := Digits(nanoseconds / 100, 7);
    var fraction := Stripped(digits);
    PaddingRestores(digits);
    StrippedBegins(digits);
    DigitsAreDigits(nanoseconds / 100, 7);
    PaddedNumber(fraction, 7);
    NumberIsValue(Padded(fraction, 7));
    var s := Suffix(nanoseconds);
    if fraction != [] {
      assert s[1..] == fraction;
      assert forall i | 1 <= i < |s| :: s[i] == fraction[i - 1] && fraction[i - 1] == digits[i - 1];
    }
    hide Digits, Stripped, Padded, Value, Number, TenTo;
  }
}
