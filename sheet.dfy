/**
 * The uploaded workbook after `pd.read_excel` and the preparation `_read_and_prepare` applies to
 * it: headers normalised, four numeric columns coerced to integers, eleven text columns turned
 * into trimmed strings, each column overwritten in place.
 */
module Sheet {
  import opened Text
  import opened Headers

  /** One cell as the spreadsheet reader hands it over: empty (NaN), an integer, or text. */
  datatype Cell = Blank | Num(n: int) | Str(s: string)

  /** The column loops of `_read_and_prepare`: which columns are coerced to integers and which are
      turned into trimmed strings. */
  const NumericColumns: seq<string> := ["over", "ball", "batsman_runs", "total_runs"]
  const TextColumns: seq<string> := ["tournament", "match_id", "batting_team", "bowling_team",
    "batsman", "bowler", "ball_type", "bowling_action", "bowler_type", "dismissal_kind", "player_dismissed"]

  predicate IsDigit(c: char) { '0' <= c <= '9' }

  function DigitValue(c: char): nat requires IsDigit(c) { c as int - '0' as int }

  function DigitChar(d: nat): (c: char)
    requires d < 10
    ensures IsDigit(c) && DigitValue(c) == d
  {
    ('0' as int + d) as char
  }

  predicate AllDigits(s: string) { forall i :: 0 <= i < |s| ==> IsDigit(s[i]) }

  /** The value of a string of decimal digits. */
  function DigitsValue(s: string): nat
    requires AllDigits(s)
  {
    if s == [] then 0 else DigitsValue(s[..|s| - 1]) * 10 + DigitValue(s[|s| - 1])
  }

  /** Decimal digits of `n`, most significant first, without leading zeros. */
  function NatDigits(n: nat): (r: string)
    ensures r != [] && AllDigits(r)
  {
    if n < 10 then [DigitChar(n)] else NatDigits(n / 10) + [DigitChar(n % 10)]
  }

  /** `str(n)` for an integer cell. */
  function IntToString(n: int): string {
    if n < 0 then "-" + NatDigits(-n) else NatDigits(n)
  }

  /** The text `pd.to_numeric` reads as an integer: an optional minus sign and at least one digit. */
  predicate IsIntegerText(s: string) {
    if s != [] && s[0] == '-' then |s| > 1 && AllDigits(s[1..]) else s != [] && AllDigits(s)
  }

  function IntegerTextValue(s: string): int
    requires IsIntegerText(s)
  {
    if s[0] == '-' then -(DigitsValue(s[1..]) as int) else DigitsValue(s)
  }

  /** `pd.to_numeric(errors="coerce").fillna(0).astype(int)` on one cell: integers stay, integer
      text is read, an empty cell and any other text become 0. */
  function NumericValue(c: Cell): int {
    match c
    case Num(n) => n
    case Str(s) => if IsIntegerText(s) then IntegerTextValue(s) else 0
    case Blank => 0
  }

  /** `astype(str)` on one cell: an empty cell reads `"nan"`. */
  function AsText(c: Cell): string {
    match c
    case Num(n) => IntToString(n)
    case Str(s) => s
    case Blank => "nan"
  }

  datatype Conversion = ToInt | ToText

  /** What one column loop writes into one cell. */
  function ConvertCell(op: Conversion, c: Cell): Cell {
    match op
    case ToInt => Num(NumericValue(c))
    case ToText => Str(Strip(AsText(c)))
  }

  /** One whole column converted cell by cell. */
  function ConvertColumn(op: Conversion, col: seq<Cell>): (r: seq<Cell>)
    ensures |r| == |col|
  {
    seq(|col|, i requires 0 <= i < |col| => ConvertCell(op, col[i]))
  }

  /** The position of the first column called `name`, or `|cols|` when there is none. */
  function IndexOf(cols: seq<string>, name: string): (j: nat)
    ensures j <= |cols|
    ensures j < |cols| <==> name in cols
    ensures j < |cols| ==> cols[j] == name && forall i :: 0 <= i < j ==> cols[i] != name
  {
    if cols == [] then 0 else if cols[0] == name then 0 else 1 + IndexOf(cols[1..], name)
  }

  /** `if c in df.columns: df[c] = <converted df[c]>` for one name. */
  function ConvertNamed(cols: seq<string>, cells: seq<seq<Cell>>, name: string, op: Conversion): (r: seq<seq<Cell>>)
    ensures |r| == |cells|
    ensures forall j :: 0 <= j < |r| ==> |r[j]| == |cells[j]|
  {
    var j := IndexOf(cols, name);
    if j < |cells| then cells[j := ConvertColumn(op, cells[j])] else cells
  }

  /** The loop `for c in names: ...` over a whole list of names, written as a fold from the left. */
  function ConvertAll(cols: seq<string>, cells: seq<seq<Cell>>, names: seq<string>, op: Conversion): (r: seq<seq<Cell>>)
    ensures |r| == |cells|
    ensures forall j :: 0 <= j < |r| ==> |r[j]| == |cells[j]|
    decreases |names|
  {
    if names == [] then cells
    else ConvertNamed(cols, ConvertAll(cols, cells, names[..|names| - 1], op), names[|names| - 1], op)
  }

  /** The cells `_read_and_prepare` leaves under the (already normalised) headers `cols`. */
  function Prepared(cols: seq<string>, cells: seq<seq<Cell>>): (r: seq<seq<Cell>>)
    ensures |r| == |cells|
    ensures forall j :: 0 <= j < |r| ==> |r[j]| == |cells[j]|
  {
    ConvertAll(cols, ConvertAll(cols, cells, NumericColumns, ToInt), TextColumns, ToText)
  }

  lemma {:induction false} DigitsRoundTrip(n: nat)
    ensures DigitsValue(NatDigits(n)) == n
  {
    if n >= 10 {
      var x := NatDigits(n / 10);
      var d := DigitChar(n % 10);
      assert (x + [d])[..|x + [d]| - 1] == x;
      DigitsRoundTrip(n / 10);
    }
  }

  /** `pd.to_numeric` reads back every integer that `str` wrote: text coercion inverts `str`. */
  lemma IntegerTextRoundTrip(n: int)
    ensures IsIntegerText(IntToString(n))
    ensures IntegerTextValue(IntToString(n)) == n
    ensures NumericValue(Str(IntToString(n))) == n
  {
    var t := IntToString(n);
    if n < 0 {
      DigitsRoundTrip(-n);
      assert t[1..] == NatDigits(-n);
    } else {
      DigitsRoundTrip(n);
      assert t[0] != '-';
    }
  }

  /** Empty cells and text that is not an integer coerce to 0; integer text is read. */
  lemma CoercionExamples()
    ensures NumericValue(Blank) == 0
    ensures NumericValue(Str("four")) == 0
    ensures NumericValue(Str("")) == 0
    ensures NumericValue(Str("-")) == 0
    ensures NumericValue(Str("12")) == 12
    ensures NumericValue(Str("-3")) == -3
  {
    assert !IsDigit('f');
    assert "-"[1..] == [];
    assert "-3"[1..] == "3";
    TwelveReads();
  }

  lemma TwelveReads()
    ensures NumericValue(Str("12")) == 12
  {
    assert "12"[..1] == "1";
    assert "1"[..0] == [];
    assert DigitsValue("1") == 1;
    assert DigitsValue("12") == DigitsValue("1") * 10 + 2;
  }

  /** Converting a converted cell again changes nothing. */
  lemma ConvertCellIdempotent(op: Conversion, c: Cell)
    ensures ConvertCell(op, ConvertCell(op, c)) == ConvertCell(op, c)
  {
    if op == ToText {
      StripIdempotent(AsText(c));
    }
  }

  lemma ConvertColumnIdempotent(op: Conversion, col: seq<Cell>)
    ensures ConvertColumn(op, ConvertColumn(op, col)) == ConvertColumn(op, col)
  {
    forall i | 0 <= i < |col| {
      ConvertCellIdempotent(op, col[i]);
    }
  }

  /** Whether column `j` is the one `df[name]` reads: the first column carrying `cols[j]`. */
  predicate IsFirstOfName(cols: seq<string>, j: int)
    requires 0 <= j < |cols|
  {
    IndexOf(cols, cols[j]) == j
  }

  /** What the loop over `names` leaves in column `j`: converted if `j` is the first column with a
      listed name, untouched otherwise. */
  lemma {:induction false} ConvertAllAt(cols: seq<string>, cells: seq<seq<Cell>>, names: seq<string>, op: Conversion, j: int)
    requires |cells| == |cols| && 0 <= j < |cols|
    ensures ConvertAll(cols, cells, names, op)[j]
         == if IsFirstOfName(cols, j) && cols[j] in names then ConvertColumn(op, cells[j]) else cells[j]
    decreases |names|
  {
    if names != [] {
      var init := names[..|names| - 1];
      var last := names[|names| - 1];
      assert names == init + [last];
      ConvertAllAt(cols, cells, init, op, j);
      if IndexOf(cols, last) == j {
        ConvertColumnIdempotent(op, cells[j]);
      }
    }
  }

  lemma NumericAndTextDisjoint()
    ensures forall c :: c in NumericColumns ==> c !in TextColumns
  {
  }

  /** Column by column, what `_read_and_prepare` leaves: a numeric column coerced, a text column
      trimmed, any other column as it was. */
  lemma PreparedAt(cols: seq<string>, cells: seq<seq<Cell>>, j: int)
    requires |cells| == |cols| && 0 <= j < |cols|
    ensures |Prepared(cols, cells)| == |cells|
    ensures Prepared(cols, cells)[j]
         == if IsFirstOfName(cols, j) && cols[j] in NumericColumns then ConvertColumn(ToInt, cells[j])
            else if IsFirstOfName(cols, j) && cols[j] in TextColumns then ConvertColumn(ToText, cells[j])
            else cells[j]
  {
    NumericAndTextDisjoint();
    var coerced := ConvertAll(cols, cells, NumericColumns, ToInt);
    ConvertAllAt(cols, cells, NumericColumns, ToInt, j);
    ConvertAllAt(cols, coerced, TextColumns, ToText, j);
  }

  /** Preparing a prepared frame changes nothing, headers included. */
  lemma PrepareIdempotent(cols: seq<string>, cells: seq<seq<Cell>>)
    requires |cells| == |cols|
    ensures NormalizeColumns(NormalizeColumns(cols)) == NormalizeColumns(cols)
    ensures Prepared(cols, Prepared(cols, cells)) == Prepared(cols, cells)
  {
    NormalizeColumnsIdempotent(cols);
    var once := Prepared(cols, cells);
    forall j | 0 <= j < |cols|
      ensures Prepared(cols, once)[j] == once[j]
    {
      PreparedAt(cols, cells, j);
      PreparedAt(cols, once, j);
      ConvertColumnIdempotent(ToInt, cells[j]);
      ConvertColumnIdempotent(ToText, cells[j]);
    }
  }

  /** After preparation every cell of a numeric column is an integer and every cell of a text
      column is text with no surrounding whitespace. */
  lemma PreparedCellsTyped(cols: seq<string>, cells: seq<seq<Cell>>, j: int, i: int)
    requires |cells| == |cols| && 0 <= j < |cols| && IsFirstOfName(cols, j)
    requires 0 <= i < |cells[j]|
    ensures cols[j] in NumericColumns ==> Prepared(cols, cells)[j][i].Num?
    ensures cols[j] in TextColumns ==> Prepared(cols, cells)[j][i].Str?
    ensures cols[j] in TextColumns ==> Strip(Prepared(cols, cells)[j][i].s) == Prepared(cols, cells)[j][i].s
  {
    var p := Prepared(cols, cells);
    PreparedAt(cols, cells, j);
    if cols[j] in NumericColumns {
      assert p[j] == ConvertColumn(ToInt, cells[j]);
      NumericAndTextDisjoint();
    } else if cols[j] in TextColumns {
      assert p[j] == ConvertColumn(ToText, cells[j]);
      assert p[j][i] == Str(Strip(AsText(cells[j][i])));
      StripIdempotent(AsText(cells[j][i]));
    }
  }

  /** The uploaded workbook as a frame: one header per column and the cells column by column. */
  class Frame {
    var columns: seq<string>
    var cells: seq<seq<Cell>>
    var height: nat

    /** Every header has a column, and every column holds one cell per row. */
    ghost predicate Valid()
      reads this
    {
      |cells| == |columns| && forall j :: 0 <= j < |cells| ==> |cells[j]| == height
    }

    constructor (columns: seq<string>, cells: seq<seq<Cell>>, height: nat)
      requires |cells| == |columns| && forall j :: 0 <= j < |cells| ==> |cells[j]| == height
      ensures Valid()
      ensures this.columns == columns && this.cells == cells && this.height == height
    {
      this.columns := columns;
      this.cells := cells;
      this.height := height;
    }

    /** `_read_and_prepare` after the file is read: normalise the headers, then overwrite each
        numeric column that exists with its integer coercion and each text column that exists
        with its trimmed string form. */
    method Prepare()
      requires Valid()
      modifies this
      ensures Valid()
      ensures height == old(height)
      ensures columns == NormalizeColumns(old(columns))
      ensures cells == Prepared(columns, old(cells))
    {
      columns := NormalizeColumns(columns);
      ConvertBoth(NumericColumns, TextColumns);
    }

    /** The two coercion loops: first the numeric columns, then the text columns. */
    method ConvertBoth(numeric: seq<string>, text: seq<string>)
      requires Valid()
      modifies this`cells
      ensures Valid()
      ensures cells == ConvertAll(columns, ConvertAll(columns, old(cells), numeric, ToInt), text, ToText)
    {
      ConvertColumns(numeric, ToInt);
      ConvertColumns(text, ToText);
    }

    /** `for c in names: if c in df.columns: df[c] = <converted df[c]>`. */
    method ConvertColumns(names: seq<string>, op: Conversion)
      requires |cells| == |columns|
      modifies this`cells
      ensures |cells| == |columns|
      ensures cells == ConvertAll(columns, old(cells), names, op)
    {
      ghost var start := cells;
      for k := 0 to |names|
        invariant |cells| == |columns|
        invariant cells == ConvertAll(columns, start, names[..k], op)
      {
        var j := IndexOf(columns, names[k]);
        if j < |cells| {
          cells := cells[j := ConvertColumn(op, cells[j])];
        }
        assert names[..k + 1][..k] == names[..k];
      }
      assert names[..|names|] == names;
    }
  }
}
