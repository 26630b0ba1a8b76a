/** Fixed-width text output shared by the two reporters: printf's `%Ns` and
    `%d`, the rule lines and the `%35s |` / `%10s |` table rows of nvencinfo. */
module Layout {

  /** `n` blanks. */
  function Spaces(n: nat): (r: string)
    ensures |r| == n
    ensures forall k :: 0 <= k < n ==> r[k] == ' '
  {
    seq(n, _ => ' ')
  }

  /** printf("%Ns", s): `s` right-aligned in a field of at least `width`
      characters. A longer `s` is printed whole, never truncated. */
  function PadLeft(s: string, width: nat): (r: string)
    ensures |r| == if |s| < width then width else |s|
    ensures r[|r| - |s|..] == s
    ensures forall k :: 0 <= k < |r| - |s| ==> r[k] == ' '
  {
    if |s| < width then Spaces(width - |s|) + s else s
  }

  // ---------------------------------------------------------------------
  // printf("%d", v)

  function DigitChar(d: nat): (c: char)
    requires d < 10
    ensures '0' <= c <= '9' && c as int - '0' as int == d
  {
    (d + '0' as int) as char
  }

  /** Decimal digits of `n`, most significant first, no leading zero. */
  function NatToText(n: nat): (r: string)
    ensures |r| >= 1
    ensures forall k :: 0 <= k < |r| ==> '0' <= r[k] <= '9'
    ensures |r| > 1 ==> r[0] != '0'
    decreases n
  {
    if n < 10 then [DigitChar(n)] else NatToText(n / 10) + [DigitChar(n % 10)]
  }

  /** printf("%d", v). */
  function IntToText(v: int): (r: string)
    ensures |r| >= 1
    ensures (r[0] == '-') <==> v < 0
  {
    if v < 0 then "-" + NatToText(-v) else NatToText(v)
  }

  /** Reads back a string of decimal digits: the inverse of NatToText. */
  function TextToNat(s: string): nat
    requires forall k :: 0 <= k < |s| ==> '0' <= s[k] <= '9'
  {
    if s == [] then 0
    else TextToNat(s[..|s| - 1]) * 10 + (s[|s| - 1] as int - '0' as int)
  }

  /** Printing a number and reading it back gives the number: `%d` loses nothing. */
  lemma {:induction false} NatToTextRoundTrip(n: nat)
    ensures TextToNat(NatToText(n)) == n
    decreases n
  {
    if n >= 10 {
      var s := NatToText(n);
      assert s[..|s| - 1] == NatToText(n / 10);
      NatToTextRoundTrip(n / 10);
    }
  }

  /** Reads back what `%d` printed: the inverse of IntToText. */
  function TextToInt(s: string): int
    requires |s| >= 1
    requires forall k :: (if s[0] == '-' then 1 else 0) <= k < |s| ==> '0' <= s[k] <= '9'
  {
    if s[0] == '-' then 0 - TextToNat(s[1..]) as int else TextToNat(s)
  }

  /** `%d` loses nothing, negative numbers included. */
  lemma IntToTextRoundTrip(v: int)
    ensures var s := IntToText(v);
            (forall k :: (if s[0] == '-' then 1 else 0) <= k < |s| ==> '0' <= s[k] <= '9')
            && TextToInt(s) == v
  {
    if v < 0 {
      NatToTextRoundTrip(-v);
      assert IntToText(v)[1..] == NatToText(-v);
    } else {
      NatToTextRoundTrip(v);
    }
  }

  // ---------------------------------------------------------------------
  // nvencinfo's table layout: a 35-wide name column, then 10-wide cells,
  // each followed by " |".

  const LabelWidth: nat := 35
  const CellWidth: nat := 10

  /** The width of every nvencinfo line that fits: 37 + 12 per column. */
  function LineWidth(columns: nat): nat {
    LabelWidth + 2 + (CellWidth + 2) * columns
  }

  /** printf("%10s |", text). */
  function Cell(text: string): (r: string)
    ensures |r| == (if |text| < CellWidth then CellWidth else |text|) + 2
    ensures r[|r| - 2..] == " |" && r[|r| - 2 - |text|..|r| - 2] == text
  {
    PadLeft(text, CellWidth) + " |"
  }

  /** The cells of one row, left to right. */
  function Cells(texts: seq<string>): string
  {
    if texts == [] then "" else Cells(texts[..|texts| - 1]) + Cell(texts[|texts| - 1])
  }

  /** printf("%35s |", name) followed by one cell per column. */
  function Row(name: string, texts: seq<string>): string
  {
    PadLeft(name, LabelWidth) + " |" + Cells(texts)
  }

  /** Every text that fits its column gives cells of exactly 12 characters each. */
  lemma {:induction false} CellsWidth(texts: seq<string>)
    requires forall k :: 0 <= k < |texts| ==> |texts[k]| <= CellWidth
    ensures |Cells(texts)| == (CellWidth + 2) * |texts|
    decreases |texts|
  {
    if texts != [] {
      CellsWidth(texts[..|texts| - 1]);
    }
  }

  /** A text wider than its column pushes the rest of the row to the right. */
  lemma {:induction false} CellsAtLeast(texts: seq<string>)
    ensures |Cells(texts)| >= (CellWidth + 2) * |texts|
    decreases |texts|
  {
    if texts != [] {
      CellsAtLeast(texts[..|texts| - 1]);
    }
  }

  /** printf("%35s |", name), then printf("%10s |", text) for each cell and
      the newline: one table row. */
  method PrintRow(name: string, texts: seq<string>) returns (line: string)
    ensures line == Row(name, texts)
  {
    line := PadLeft(name, LabelWidth) + " |";
    assert texts[..0] == [];
    for j := 0 to |texts|
      invariant line == Row(name, texts[..j])
    {
      RowSnoc(name, texts, j);
      line := line + Cell(texts[j]);
    }
    assert texts[..|texts|] == texts;
  }

  /** Printing one more cell extends the row by that cell. */
  lemma RowSnoc(name: string, texts: seq<string>, j: nat)
    requires j < |texts|
    ensures Row(name, texts[..j + 1]) == Row(name, texts[..j]) + Cell(texts[j])
  {
    CellsSnoc(texts, j);
  }

  /** A row whose name and cells fit lines up with the rules: 37 + 12n characters;
      otherwise it is longer. */
  lemma RowWidth(name: string, texts: seq<string>)
    ensures |Row(name, texts)| >= LineWidth(|texts|)
    ensures |name| <= LabelWidth && (forall k :: 0 <= k < |texts| ==> |texts[k]| <= CellWidth)
            ==> |Row(name, texts)| == LineWidth(|texts|)
  {
    CellsAtLeast(texts);
    if |name| <= LabelWidth && (forall k :: 0 <= k < |texts| ==> |texts[k]| <= CellWidth) {
      CellsWidth(texts);
    }
  }

  /** Appending one cell to a row prefix: how the report loops build a row. */
  lemma CellsSnoc(texts: seq<string>, j: nat)
    requires j < |texts|
    ensures Cells(texts[..j + 1]) == Cells(texts[..j]) + Cell(texts[j])
  {
    assert texts[..j + 1][..j] == texts[..j];
  }

  // ---------------------------------------------------------------------
  // print_divider, print_thick_divider, print_header

  /** A rule of `fill` characters as wide as a table of `count` columns. */
  function RuleLine(fill: char, count: nat): string {
    seq(LineWidth(count), _ => fill)
  }

  function Divider(count: nat): string { RuleLine('-', count) }

  function ThickDivider(count: nat): string { RuleLine('=', count) }

  /** The blank header cell, printf("           |"): an empty `%10s |` cell. */
  const HeaderCell: string := "           |"

  /** print_header: the section title followed by one blank cell per column. */
  function HeaderLine(text: string, count: nat): string {
    text + Cells(seq(count, _ => ""))
  }

  /** print_divider(count) / print_thick_divider(count): 37 fill characters, then
      12 more per column. */
  method Rule(fill: char, count: nat) returns (line: string)
    ensures line == RuleLine(fill, count)
    ensures |line| == LineWidth(count)
    ensures forall k :: 0 <= k < |line| ==> line[k] == fill
  {
    line := seq(37, _ => fill);
    var i := 0;
    while i < count
      invariant 0 <= i <= count
      invariant |line| == LineWidth(i)
      invariant forall k :: 0 <= k < |line| ==> line[k] == fill
    {
      line := line + seq(12, _ => fill);
      i := i + 1;
    }
  }

  /** print_header(text, count): `text`, then `count` copies of the 12-character
      blank cell. */
  method Header(text: string, count: nat) returns (line: string)
    ensures line == HeaderLine(text, count)
    ensures |line| == |text| + (CellWidth + 2) * count
  {
    assert Cell("") == HeaderCell;
    line := text;
    var i := 0;
    while i < count
      invariant 0 <= i <= count
      invariant line == HeaderLine(text, i)
    {
      HeaderSnoc(text, i);
      line := line + HeaderCell;
      i := i + 1;
    }
    CellsWidth(seq(count, _ => ""));
  }

  /** One more blank cell on a header line. */
  lemma HeaderSnoc(text: string, i: nat)
    ensures HeaderLine(text, i + 1) == HeaderLine(text, i) + Cell("")
  {
    var blanks := seq(i + 1, _ => "");
    assert blanks[..i] == seq(i, _ => "");
    CellsSnoc(blanks, i);
    assert blanks[..i + 1] == blanks;
  }

  /** A rule is exactly as wide as a fitting row of the same table. */
  lemma RulesMatchRows(fill: char, name: string, texts: seq<string>)
    requires |name| <= LabelWidth
    requires forall k :: 0 <= k < |texts| ==> |texts[k]| <= CellWidth
    ensures |RuleLine(fill, |texts|)| == |Row(name, texts)|
  {
    RowWidth(name, texts);
  }
}
