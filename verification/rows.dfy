/**
 * The text format shared by `VerticesProperty` and `VertexColorProperty`:
 * one row per line, the numbers of a row separated by commas. Reading
 * strips the text, splits it on "\n", strips each line, splits it on ","
 * and converts every field; writing emits "\n" and then, per row, the
 * numbers joined by ", " followed by "\n".
 *
 * How a single number is read and written is a parameter (`Format`): the
 * vertex codec uses Python's `float` and `str`, which this model keeps
 * abstract, and the colour codec uses `int` and `str` with a scaling.
 */
module Rows {
  import opened Wrappers
  import opened Text

  /** How one number is read from a token and written back. */
  datatype Format = Format(parse: string -> Option<real>, show: real -> string)

  datatype RowError = WrongFieldCount(line: string) | BadNumber(token: string)

  /** `float(token)` / `int(token)` both ignore surrounding whitespace. */
  function ReadField(f: Format, token: string): Option<real> {
    f.parse(Strip(token))
  }

  /** The fields of one row, converted left to right; the first bad field raises. */
  function ReadFields(f: Format, fields: seq<string>): (r: Result<seq<real>, RowError>)
    ensures r.Ok? <==> forall i {:trigger ReadField(f, fields[i])} :: 0 <= i < |fields| ==> ReadField(f, fields[i]).Some?
    ensures r.Ok? ==> |r.value| == |fields|
    ensures r.Ok? ==> forall i {:trigger ReadField(f, fields[i])} :: 0 <= i < |fields| ==> ReadField(f, fields[i]) == Some(r.value[i])
    ensures r.Err? ==> r.error.BadNumber?
  {
    if fields == [] then Ok([])
    else
      match ReadField(f, fields[0])
      case None => Err(BadNumber(fields[0]))
      case Some(v) =>
        match ReadFields(f, fields[1..])
        case Err(e) => Err(e)
        case Ok(vs) => Ok([v] + vs)
  }

  /** Field `k` is the first that does not read as a number. */
  predicate FirstBadField(f: Format, fields: seq<string>, k: int) {
    0 <= k < |fields| && ReadField(f, fields[k]).None? &&
    forall j :: 0 <= j < k ==> ReadField(f, fields[j]).Some?
  }

  /** One line: exactly `arity` comma-separated fields, else a read-value error. */
  function ReadRow(f: Format, arity: nat, line: string): (r: Result<seq<real>, RowError>)
    ensures r.Ok? ==> |r.value| == arity
    ensures |Split(Strip(line), ',')| != arity ==> r == Err(WrongFieldCount(line))
  {
    var fields := Split(Strip(line), ',');
    if |fields| != arity then Err(WrongFieldCount(line)) else ReadFields(f, fields)
  }

  /** Line `k` is the first that does not read as a row. */
  predicate FirstBadRow(f: Format, arity: nat, lines: seq<string>, k: int) {
    0 <= k < |lines| && ReadRow(f, arity, lines[k]).Err? &&
    forall j :: 0 <= j < k ==> ReadRow(f, arity, lines[j]).Ok?
  }

  /**
   * All lines, in order. One bad line makes the whole result an error, the
   * first bad line's, never a partial list.
   */
  function ReadRows(f: Format, arity: nat, lines: seq<string>): (r: Result<seq<seq<real>>, RowError>)
    ensures r.Ok? <==> forall i {:trigger ReadRow(f, arity, lines[i])} :: 0 <= i < |lines| ==> ReadRow(f, arity, lines[i]).Ok?
    ensures r.Ok? ==> |r.value| == |lines|
    ensures r.Ok? ==> forall i {:trigger ReadRow(f, arity, lines[i])} :: 0 <= i < |lines| ==> ReadRow(f, arity, lines[i]) == Ok(r.value[i])

  {
    if lines == [] then Ok([])
    else
      match ReadRow(f, arity, lines[0])
      case Err(e) => Err(e)
      case Ok(row) =>
        match ReadRows(f, arity, lines[1..])
        case Err(e) => Err(e)
        case Ok(rows) => Ok([row] + rows)
  }

  /** The error of a bad field is the first bad field's. */
  lemma {:induction false} FirstFieldErrorWins(f: Format, fields: seq<string>, k: int)
    requires FirstBadField(f, fields, k)
    ensures ReadFields(f, fields) == Err(BadNumber(fields[k]))
  {
    if k > 0 {
      assert FirstBadField(f, fields[1..], k - 1) by {
        assert forall j :: 0 <= j < k - 1 ==> fields[1..][j] == fields[j + 1];
      }
      FirstFieldErrorWins(f, fields[1..], k - 1);
    }
  }

  /** The error of a bad text is the first bad line's. */
  lemma {:induction false} FirstRowErrorWins(f: Format, arity: nat, lines: seq<string>, k: int)
    requires FirstBadRow(f, arity, lines, k)
    ensures ReadRows(f, arity, lines) == Err(ReadRow(f, arity, lines[k]).error)
  {
    if k > 0 {
      assert FirstBadRow(f, arity, lines[1..], k - 1) by {
        assert forall j :: 0 <= j < k - 1 ==> lines[1..][j] == lines[j + 1];
      }
      FirstRowErrorWins(f, arity, lines[1..], k - 1);
    }
  }

  /**
   * Every row read has `arity` numbers, and every number is something the
   * format's reader returned, so a property of all parsed numbers holds of
   * every number in the rows.
   */
  lemma {:induction false} ReadValues(f: Format, arity: nat, lines: seq<string>, p: real -> bool)
    requires forall t :: f.parse(t).Some? ==> p(f.parse(t).value)
    requires ReadRows(f, arity, lines).Ok?
    ensures forall i :: 0 <= i < |lines| ==> |ReadRows(f, arity, lines).value[i]| == arity
    ensures forall i, j :: 0 <= i < |lines| && 0 <= j < arity ==> p(ReadRows(f, arity, lines).value[i][j])
  {
    var rows := ReadRows(f, arity, lines).value;
    forall i | 0 <= i < |lines| ensures |rows[i]| == arity && forall j :: 0 <= j < arity ==> p(rows[i][j]) {
      var row := rows[i];
      assert ReadRow(f, arity, lines[i]) == Ok(row);
      var fields := Split(Strip(lines[i]), ',');
      assert ReadFields(f, fields) == Ok(row);
      forall j | 0 <= j < arity ensures p(row[j]) {
        assert ReadField(f, fields[j]) == Some(row[j]);
      }
    }
  }

  /** The lines of an element's text. */
  function Lines(text: string): seq<string> {
    Split(Strip(text), '\n')
  }

  /** Reading an element's text. */
  function ReadText(f: Format, arity: nat, text: string): Result<seq<seq<real>>, RowError> {
    ReadRows(f, arity, Lines(text))
  }

  /** A text of nothing but whitespace has one empty line, which has one field. */
  lemma {:induction false} BlankTextFails(f: Format, arity: nat, text: string)
    requires AllSpace(text) && arity != 1
    ensures ReadText(f, arity, text) == Err(WrongFieldCount(""))
  {
    StripBlank(text);
    assert Lines(text) == [""];
    assert Split(Strip(""), ',') == [""];
  }

  /** The written numbers of a row. */
  function Shown(f: Format, row: seq<real>): (ts: seq<string>)
    ensures |ts| == |row|
  {
    seq(|row|, i requires 0 <= i < |row| => f.show(row[i]))
  }

  /** One row as written: its numbers joined by ", ". */
  function RowLine(f: Format, row: seq<real>): string {
    Join(Shown(f, row), ", ")
  }

  /** The rows as written after the leading "\n": each line followed by "\n". */
  function RowsBody(f: Format, rows: seq<seq<real>>): string {
    if rows == [] then ""
    else RowsBody(f, rows[..|rows| - 1]) + RowLine(f, rows[|rows| - 1]) + "\n"
  }

  /** The whole element text the writer produces. */
  function RowsText(f: Format, rows: seq<seq<real>>): string {
    "\n" + RowsBody(f, rows)
  }

  /** A written number: non-empty, no whitespace, no comma. */
  predicate IsToken(t: string) {
    |t| > 0 && forall i :: 0 <= i < |t| ==> !IsSpace(t[i]) && t[i] != ','
  }

  /** Every number is written as a token that reads back as some number. */
  ghost predicate Printable(f: Format) {
    forall x :: IsToken(f.show(x)) && f.parse(f.show(x)).Some?
  }

  /** Every number reads back as itself. */
  ghost predicate Faithful(f: Format) {
    forall x :: f.parse(f.show(x)) == Some(x)
  }

  /** What a written number reads back as. */
  function Reread(f: Format, x: real): real
    requires Printable(f)
  {
    f.parse(f.show(x)).value
  }

  function RereadRow(f: Format, row: seq<real>): (r: seq<real>)
    requires Printable(f)
    ensures |r| == |row|
  {
    seq(|row|, j requires 0 <= j < |row| => Reread(f, row[j]))
  }

  /** Splitting a ", "-join of comma-free texts on "," gives them back, all but the first with a leading space. */
  lemma {:induction false} SplitCommaJoin(ts: seq<string>)
    requires |ts| >= 1
    requires forall i :: 0 <= i < |ts| ==> ',' !in ts[i]
    ensures |Split(Join(ts, ", "), ',')| == |ts|
    ensures Split(Join(ts, ", "), ',')[0] == ts[0]
    ensures forall j :: 1 <= j < |ts| ==> Split(Join(ts, ", "), ',')[j] == " " + ts[j]
  {
    var n := |ts|;
    if n == 1 {
      SplitNoSep(ts[0], ',');
    } else {
      var init := ts[..n - 1];
      var last := " " + ts[n - 1];
      var a := Join(init, ", ");
      SplitCommaJoin(init);
      assert Split(Join(ts, ", "), ',') == Split(a, ',') + [last] by {
        assert Join(ts, ", ") == a + [','] + last;
        SplitAppend(a, last, ',');
        SplitNoSep(last, ',');
      }
    }
  }

  /** Every written number of a row is a token. */
  lemma {:induction false} ShownTokens(f: Format, row: seq<real>)
    requires Printable(f)
    ensures forall i :: 0 <= i < |row| ==> IsToken(Shown(f, row)[i])
  {
    forall i | 0 <= i < |row| ensures IsToken(Shown(f, row)[i]) {
      var x := row[i];
      assert Shown(f, row)[i] == f.show(x);
      assert IsToken(f.show(x)) && f.parse(f.show(x)).Some?;
    }
  }

  /** A written row is one trimmed, non-empty line. */
  lemma {:induction false} LineShape(f: Format, row: seq<real>)
    requires Printable(f) && |row| >= 1
    ensures var line := RowLine(f, row);
      |line| >= 1 && !IsSpace(line[0]) && !IsSpace(line[|line| - 1]) && '\n' !in line
  {
    var ts := Shown(f, row);
    var line := RowLine(f, row);
    ShownTokens(f, row);
    JoinAvoids(ts, ", ", '\n');
    JoinPrefix(ts, ", ");
    assert line[0] == ts[0][0];
    assert line[|line| - 1] == ts[|ts| - 1][|ts[|ts| - 1]| - 1];
  }

  /** Fields that each read as the matching number read as those numbers. */
  lemma {:induction false} FieldsRead(f: Format, fields: seq<string>, vs: seq<real>)
    requires |fields| == |vs|
    requires forall j :: 0 <= j < |fields| ==> ReadField(f, fields[j]) == Some(vs[j])
    ensures ReadFields(f, fields) == Ok(vs)
  {
    var r := ReadFields(f, fields);
    assert r.Ok?;
    assert r.value == vs;
  }

  /** The comma-separated fields of a written row each read as the number they were written from. */
  lemma {:induction false} WrittenFields(f: Format, row: seq<real>)
    requires Printable(f) && |row| >= 1
    ensures var fields := Split(RowLine(f, row), ',');
      |fields| == |row| &&
      forall j :: 0 <= j < |fields| ==> ReadField(f, fields[j]) == Some(RereadRow(f, row)[j])
  {
    var ts := Shown(f, row);
    var fields := Split(RowLine(f, row), ',');
    ShownTokens(f, row);
    SplitCommaJoin(ts);
    forall j | 0 <= j < |row| ensures ReadField(f, fields[j]) == Some(RereadRow(f, row)[j]) {
      if j == 0 {
        StripTrimmed(ts[0]);
      } else {
        StripPadded(" ", ts[j], "");
        assert " " + ts[j] + "" == fields[j];
      }
    }
  }

  /** A written row reads back, number by number, as what its numbers reread as. */
  lemma {:induction false} RowRoundTrip(f: Format, row: seq<real>)
    requires Printable(f) && |row| >= 1
    ensures ReadRow(f, |row|, RowLine(f, row)) == Ok(RereadRow(f, row))
  {
    var line := RowLine(f, row);
    LineShape(f, row);
    StripTrimmed(line);
    WrittenFields(f, row);
    FieldsRead(f, Split(line, ','), RereadRow(f, row));
  }

  /** The lines the writer emits, one per row. */
  function RowLines(f: Format, rows: seq<seq<real>>): (lines: seq<string>)
    ensures |lines| == |rows|
  {
    seq(|rows|, i requires 0 <= i < |rows| => RowLine(f, rows[i]))
  }

  /** The rows as written are the lines joined by "\n", with a final "\n". */
  lemma {:induction false} BodyIsJoin(f: Format, rows: seq<seq<real>>)
    requires |rows| >= 1
    ensures RowsBody(f, rows) == Join(RowLines(f, rows), "\n") + "\n"
  {
    if |rows| > 1 {
      var init := rows[..|rows| - 1];
      BodyIsJoin(f, init);
      assert RowLines(f, rows)[..|rows| - 1] == RowLines(f, init);
    }
  }

  /** Reading splits the written text back into the written lines. */
  lemma {:induction false} TextLines(f: Format, rows: seq<seq<real>>)
    requires Printable(f) && |rows| >= 1
    requires forall i :: 0 <= i < |rows| ==> |rows[i]| >= 1
    ensures Lines(RowsText(f, rows)) == RowLines(f, rows)
  {
    var lines := RowLines(f, rows);
    var body := Join(lines, "\n");
    BodyIsJoin(f, rows);
    forall i | 0 <= i < |rows|
      ensures '\n' !in lines[i] && |lines[i]| >= 1
      ensures !IsSpace(lines[i][0]) && !IsSpace(lines[i][|lines[i]| - 1])
    {
      LineShape(f, rows[i]);
    }
    JoinPrefix(lines, "\n");
    assert body[0] == lines[0][0];
    assert body[|body| - 1] == lines[|lines| - 1][|lines[|lines| - 1]| - 1];
    StripPadded("\n", body, "\n");
    assert RowsText(f, rows) == "\n" + body + "\n";
    SplitJoin(lines, '\n');
  }

  /** What the rows reread as, number by number. */
  function RereadRows(f: Format, rows: seq<seq<real>>): (r: seq<seq<real>>)
    requires Printable(f)
    ensures |r| == |rows|
  {
    seq(|rows|, i requires 0 <= i < |rows| => RereadRow(f, rows[i]))
  }

  /** Lines that each read as the matching row read as those rows. */
  lemma {:induction false} LinesRead(f: Format, arity: nat, lines: seq<string>, rows: seq<seq<real>>)
    requires |lines| == |rows|
    requires forall i :: 0 <= i < |lines| ==> ReadRow(f, arity, lines[i]) == Ok(rows[i])
    ensures ReadRows(f, arity, lines) == Ok(rows)
  {
    var r := ReadRows(f, arity, lines);
    assert r.Ok?;
    assert r.value == rows;
  }

  /**
   * Writing a non-empty list of rows and reading the text back gives one
   * row per written row, each number replaced by what it rereads as.
   */
  lemma {:induction false} RoundTrip(f: Format, rows: seq<seq<real>>, arity: nat)
    requires Printable(f) && arity >= 1 && |rows| >= 1
    requires forall i :: 0 <= i < |rows| ==> |rows[i]| == arity
    ensures ReadText(f, arity, RowsText(f, rows)) == Ok(RereadRows(f, rows))
  {
    TextLines(f, rows);
    var lines := RowLines(f, rows);
    var back := RereadRows(f, rows);
    forall i | 0 <= i < |rows| ensures ReadRow(f, arity, lines[i]) == Ok(back[i]) {
      RowRoundTrip(f, rows[i]);
    }
    LinesRead(f, arity, lines, back);
  }

  /** With a format whose numbers read back as themselves, writing then reading is the identity. */
  lemma {:induction false} FaithfulRoundTrip(f: Format, rows: seq<seq<real>>, arity: nat)
    requires Printable(f) && Faithful(f) && arity >= 1 && |rows| >= 1
    requires forall i :: 0 <= i < |rows| ==> |rows[i]| == arity
    ensures ReadText(f, arity, RowsText(f, rows)) == Ok(rows)
  {
    RoundTrip(f, rows, arity);
    forall i | 0 <= i < |rows| ensures RereadRows(f, rows)[i] == rows[i] {
      var row := rows[i];
      forall j | 0 <= j < |row| ensures RereadRow(f, row)[j] == row[j] {
        assert f.parse(f.show(row[j])) == Some(row[j]);
      }
      assert RereadRow(f, row) == row;
    }
    assert RereadRows(f, rows) == rows;
  }

  /** No rows are written as a lone "\n", which reads back as an error, not as no rows. */
  lemma {:induction false} EmptyDoesNotRoundTrip(f: Format, arity: nat)
    requires arity != 1
    ensures RowsText(f, []) == "\n"
    ensures ReadText(f, arity, RowsText(f, [])) == Err(WrongFieldCount(""))
  {
    BlankTextFails(f, arity, "\n");
  }
}
