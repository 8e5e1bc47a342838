/**
 What `migrationDigest` feeds to its hash (backend/core_migration.go): each value is either "N;" for NULL
 or "V;", the length of its text in decimal, a colon and the text itself. A char stands for one byte.
 */
module DigestFraming {
  import opened Options

  /** The text of a column's value; None is NULL. */
  type Cell = Option<string>

  // ---------------------------------------------------------------------------------------------
  // Framing
  // ---------------------------------------------------------------------------------------------

  function Digit(d: nat): (c: char)
    requires d < 10
    ensures c != ':' && DigitValue(c) == Some(d)
  {
    "0123456789"[d]
  }

  function DigitValue(c: char): (r: Option<nat>)
    ensures r.Some? ==> r.value < 10
  {
    if '0' <= c <= '9' then Some(c as int - '0' as int) else None
  }

  function Decimal(n: nat): (r: string)
    ensures r != ""
  {
    if n < 10 then [Digit(n)] else Decimal(n / 10) + [Digit(n % 10)]
  }

  function FramedCell(cell: Cell): (r: string)
    ensures r != ""
  {
    match cell
    case None => "N;"
    case Some(text) => "V;" + Decimal(|text|) + ":" + text
  }

  function FramedRow(row: seq<Cell>): string {
    if row == [] then "" else FramedCell(row[0]) + FramedRow(row[1..])
  }

  function Framed(rows: seq<seq<Cell>>): string {
    if rows == [] then "" else FramedRow(rows[0]) + Framed(rows[1..])
  }

  lemma {:induction false} FramedRowAppend(row: seq<Cell>, cell: Cell)
    ensures FramedRow(row + [cell]) == FramedRow(row) + FramedCell(cell)
  {
    if row == [] {
      assert FramedRow([cell]) == FramedCell(cell) + FramedRow([]);
    } else {
      assert (row + [cell])[1..] == row[1..] + [cell];
      FramedRowAppend(row[1..], cell);
    }
  }

  lemma {:induction false} FramedAppend(rows: seq<seq<Cell>>, row: seq<Cell>)
    ensures Framed(rows + [row]) == Framed(rows) + FramedRow(row)
  {
    if rows == [] {
      assert Framed([row]) == FramedRow(row) + Framed([]);
    } else {
      assert (rows + [row])[1..] == rows[1..] + [row];
      FramedAppend(rows[1..], row);
    }
  }

  method FeedCell(fed: string, cell: Cell) returns (r: string)
    ensures r == fed + FramedCell(cell)
  {
    if cell.None? {
      return fed + "N;";
    }
    var text := cell.value;
    r := fed + "V;";
    r := r + (Decimal(|text|) + ":");
    r := r + text;
    assert FramedCell(cell) == "V;" + (Decimal(|text|) + ":") + text;
  }

  method FeedRow(fed: string, row: seq<Cell>) returns (r: string)
    ensures r == fed + FramedRow(row)
  {
    hide FramedCell;
    r := fed;
    for j := 0 to |row|
      invariant r == fed + FramedRow(row[..j])
    {
      FramedRowAppend(row[..j], row[j]);
      assert row[..j + 1] == row[..j] + [row[j]];
      r := FeedCell(r, row[j]);
    }
    assert row[..|row|] == row;
  }

  /** Writes the framing piece by piece; `fed` is what the hash has been given. */
  method MigrationDigest(rows: seq<seq<Cell>>) returns (fed: string)
    ensures fed == Framed(rows)
  {
    hide FramedRow;
    fed := "";
    for i := 0 to |rows|
      invariant fed == Framed(rows[..i])
    {
      FramedAppend(rows[..i], rows[i]);
      assert rows[..i + 1] == rows[..i] + [rows[i]];
      fed := FeedRow(fed, rows[i]);
    }
    assert rows[..|rows|] == rows;
  }

  // ---------------------------------------------------------------------------------------------
  // A decoder, and why the framing is injective
  // ---------------------------------------------------------------------------------------------

  datatype Parsed<T> = Parsed(value: T, rest: string) | Malformed

  /** Reads decimal digits up to a colon. */
  function ReadLength(s: string, soFar: nat): (r: Parsed<nat>)
    ensures r.Parsed? ==> |r.rest| < |s|
    decreases |s|
  {
    if s == "" then Malformed
    else if s[0] == ':' then Parsed(soFar, s[1..])
    else
      match DigitValue(s[0])
      case Some(d) => ReadLength(s[1..], 10 * soFar + d)
      case None => Malformed
  }

  function ReadCell(s: string): (r: Parsed<Cell>)
    ensures r.Parsed? ==> |r.rest| < |s|
  {
    if |s| < 2 || s[1] != ';' then Malformed
    else if s[0] == 'N' then Parsed(None, s[2..])
    else if s[0] != 'V' then Malformed
    else
      match ReadLength(s[2..], 0)
      case Malformed => Malformed
      case Parsed(n, rest) => if n <= |rest| then Parsed(Some(rest[..n]), rest[n..]) else Malformed
  }

  function ReadCells(s: string): Option<seq<Cell>>
    decreases |s|
  {
    if s == "" then Some([])
    else
      match ReadCell(s)
      case Malformed => None
      case Parsed(cell, rest) =>
        match ReadCells(rest)
        case None => None
        case Some(cells) => Some([cell] + cells)
  }

  lemma {:induction false} ReadsDecimal(n: nat, rest: string)
    ensures ReadLength(Decimal(n) + rest, 0) == ReadLength(rest, n)
  {
    var s := Decimal(n) + rest;
    if n < 10 {
      assert s[0] == Digit(n) && s[1..] == rest;
    } else {
      assert s == Decimal(n / 10) + ([Digit(n % 10)] + rest);
      ReadsDecimal(n / 10, [Digit(n % 10)] + rest);
      assert ([Digit(n % 10)] + rest)[1..] == rest;
    }
  }

  lemma ReadsText(text: string, rest: string)
    ensures ReadCell("V;" + (Decimal(|text|) + (":" + (text + rest)))) == Parsed(Some(text), rest)
  {
    hide Decimal;
    var tail := ":" + (text + rest);
    var s := "V;" + (Decimal(|text|) + tail);
    assert s[0] == 'V' && s[1] == ';' && s[2..] == Decimal(|text|) + tail;
    ReadsDecimal(|text|, tail);
    assert tail[0] == ':' && tail[1..] == text + rest;
    assert (text + rest)[..|text|] == text && (text + rest)[|text|..] == rest;
  }

  /** A framed cell followed by anything is read back, with what follows left over. */
  lemma ReadsCell(cell: Cell, rest: string)
    ensures ReadCell(FramedCell(cell) + rest) == Parsed(cell, rest)
  {
    hide Decimal, ReadLength;
    match cell {
      case None => assert ("N;" + rest)[2..] == rest;
      case Some(text) =>
        ReadsText(text, rest);
        assert FramedCell(cell) + rest == "V;" + (Decimal(|text|) + (":" + (text + rest)));
    }
  }

  function Flatten(rows: seq<seq<Cell>>): seq<Cell> {
    if rows == [] then [] else rows[0] + Flatten(rows[1..])
  }

  lemma {:induction false} ReadsRow(row: seq<Cell>, rest: string, cells: seq<Cell>)
    requires ReadCells(rest) == Some(cells)
    ensures ReadCells(FramedRow(row) + rest) == Some(row + cells)
  {
    hide FramedCell, ReadCell;
    if row == [] {
      assert FramedRow(row) + rest == rest && row + cells == cells;
    } else {
      var tail := FramedRow(row[1..]) + rest;
      ReadsRow(row[1..], rest, cells);
      assert FramedRow(row) + rest == FramedCell(row[0]) + tail;
      ReadsCell(row[0], tail);
      assert row + cells == [row[0]] + (row[1..] + cells);
    }
  }

  /** Decoding what the digest was fed gives back every cell in order. */
  lemma {:induction false} DecodesToCells(rows: seq<seq<Cell>>)
    ensures ReadCells(Framed(rows)) == Some(Flatten(rows))
  {
    hide FramedRow, ReadCell;
    if rows != [] {
      DecodesToCells(rows[1..]);
      ReadsRow(rows[0], Framed(rows[1..]), Flatten(rows[1..]));
    }
  }

  predicate HasWidth(rows: seq<seq<Cell>>, width: nat) {
    forall i | 0 <= i < |rows| :: |rows[i]| == width
  }

  lemma {:induction false} FlattenIsInjective(a: seq<seq<Cell>>, b: seq<seq<Cell>>, width: nat)
    requires width > 0 && HasWidth(a, width) && HasWidth(b, width) && Flatten(a) == Flatten(b)
    ensures a == b
  {
    if a == [] || b == [] {
    } else {
      assert Flatten(a)[..width] == a[0] && Flatten(b)[..width] == b[0];
      assert Flatten(a)[width..] == Flatten(a[1..]) && Flatten(b)[width..] == Flatten(b[1..]);
      FlattenIsInjective(a[1..], b[1..], width);
    }
  }

  /** Two row sequences with the same number of columns feed the hash alike only if they are equal. */
  lemma FramingIsInjective(a: seq<seq<Cell>>, b: seq<seq<Cell>>, width: nat)
    requires width > 0 && HasWidth(a, width) && HasWidth(b, width)
    ensures Framed(a) == Framed(b) <==> a == b
  {
    if Framed(a) == Framed(b) {
      DecodesToCells(a);
      DecodesToCells(b);
      FlattenIsInjective(a, b, width);
    }
  }

  /** The number of columns matters: split differently, the same cells are fed alike. */
  lemma WidthMatters()
    ensures exists a: seq<seq<Cell>>, b: seq<seq<Cell>> :: a != b && Framed(a) == Framed(b)
  {
    var a: seq<seq<Cell>>, b: seq<seq<Cell>> := [[None, None]], [[None], [None]];
    assert FramedRow([None, None]) == "N;" + FramedRow([None]);
    assert Framed(a) == "N;N;" && Framed(b) == "N;N;";
    assert |a| != |b|;
  }
}
