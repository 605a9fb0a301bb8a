/** Answers of the remote file scripts: rows of base64 cells between two markers. */
module Wire {
  import opened Common
  import opened Bytes
  import Base64
  import Utf8

  const MAX_TEXT_BYTES := 8_388_608

  datatype WireError = Protocol | Remote(code: string, message: string)

  datatype Result<+T> = Ok(value: T) | Err(error: WireError)

  /** The rows of an answer, by key, in the order in which they came. */
  type Rows = map<string, seq<seq<seq<Byte>>>>

  function Begin(token: string): string { "__SERVEROPS_FILE_BEGIN_" + token + "__" }
  function End(token: string): string { "__SERVEROPS_FILE_END_" + token + "__" }

  // Text operations

  /** `text` with every "\r\n" made "\n". */
  function UnifyEnds(text: string): string {
    if text == "" then ""
    else if |text| > 1 && text[0] == '\r' && text[1] == '\n' then "\n" + UnifyEnds(text[2..])
    else [text[0]] + UnifyEnds(text[1..])
  }

  function DropReturns(text: string): string {
    if text == "" then "" else (if text[0] == '\r' then "" else [text[0]]) + DropReturns(text[1..])
  }

  /** The two replacements together drop every carriage return. */
  lemma {:induction false} ReturnsDropped(text: string)
    ensures DropReturns(UnifyEnds(text)) == DropReturns(text)
  {
    if text == "" {
    } else if |text| > 1 && text[0] == '\r' && text[1] == '\n' {
      ReturnsDropped(text[2..]);
      assert text[1..][1..] == text[2..];
      assert ("\n" + UnifyEnds(text[2..]))[1..] == UnifyEnds(text[2..]);
      assert DropReturns(text[1..]) == "\n" + DropReturns(text[2..]);
    } else {
      ReturnsDropped(text[1..]);
      assert ([text[0]] + UnifyEnds(text[1..]))[1..] == UnifyEnds(text[1..]);
    }
  }

  /** Carriage returns are dropped, and nothing else. */
  lemma {:induction false} OnlyReturnsDropped(a: string, b: string)
    requires '\r' !in a
    ensures DropReturns(a + b) == a + DropReturns(b)
    ensures DropReturns("\r" + b) == DropReturns(b)
  {
    hide DropReturns;
    OneReturnDropped(b);
    if a == "" {
      assert a + b == b && a + DropReturns(b) == DropReturns(b);
    } else {
      assert a + b == [a[0]] + (a[1..] + b);
      OnlyReturnsDropped(a[1..], b);
      OneKept(a[0], a[1..] + b);
      assert [a[0]] + (a[1..] + DropReturns(b)) == a + DropReturns(b);
    }
  }

  lemma OneKept(c: char, rest: string)
    requires c != '\r'
    ensures DropReturns([c] + rest) == [c] + DropReturns(rest)
  {
    assert ([c] + rest)[1..] == rest;
  }

  lemma OneReturnDropped(b: string)
    ensures DropReturns("\r" + b) == DropReturns(b)
  {
    assert ("\r" + b)[1..] == b && "" + DropReturns(b) == DropReturns(b);
  }

  /** Splitting at every occurrence of one character. */
  function Split(text: string, c: char): (parts: seq<string>)
    ensures parts != []
  {
    if text == "" then [""]
    else
      var rest := Split(text[1..], c);
      if text[0] == c then [""] + rest else [[text[0]] + rest[0]] + rest[1..]
  }

  /** Lines, each with its end. */
  function PrintLines(lines: seq<string>): string {
    if lines == [] then "" else lines[0] + "\n" + PrintLines(lines[1..])
  }

  lemma {:induction false} SplitFront(front: string, c: char, rest: string)
    requires c !in front
    ensures Split(front + [c] + rest, c) == [front] + Split(rest, c)
  {
    var text := front + [c] + rest;
    if front == "" {
      assert text == [c] + rest && text[1..] == rest;
    } else {
      assert text[1..] == front[1..] + [c] + rest;
      SplitFront(front[1..], c, rest);
      assert [front[0]] + front[1..] == front;
      assert ([front[1..]] + Split(rest, c))[1..] == Split(rest, c);
    }
  }

  lemma {:induction false} SplitLast(front: string, c: char)
    requires c !in front
    ensures Split(front, c) == [front]
  {
    if front != "" {
      SplitLast(front[1..], c);
      assert [front[0]] + front[1..] == front;
    }
  }

  lemma {:induction false} LinesFound(lines: seq<string>)
    requires forall l <- lines :: '\n' !in l
    ensures Split(PrintLines(lines), '\n') == lines + [""]
  {
    if lines != [] {
      assert forall l <- lines[1..] :: l in lines;
      LinesFound(lines[1..]);
      assert lines[0] in lines;
      assert PrintLines(lines) == lines[0] + ['\n'] + PrintLines(lines[1..]);
      SplitFront(lines[0], '\n', PrintLines(lines[1..]));
      assert lines == [lines[0]] + lines[1..];
    }
  }

  // Rows

  predicate IsKeyStart(c: char) { 'a' <= c <= 'z' }

  predicate IsKeyChar(c: char) { 'a' <= c <= 'z' || '0' <= c <= '9' || c == '_' }

  predicate IsKey(key: string) {
    1 <= |key| <= 32 && IsKeyStart(key[0]) && forall i :: 1 <= i < |key| ==> IsKeyChar(key[i])
  }

  datatype Row = Row(key: string, cells: seq<seq<Byte>>)

  function DecodeCells(cells: seq<string>): Option<seq<seq<Byte>>> {
    if cells == [] then Some([])
    else
      match Base64.Decode(cells[0])
      case None => None
      case Some(b) =>
        match DecodeCells(cells[1..])
        case None => None
        case Some(rest) => Some([b] + rest)
  }

  function ParseRow(line: string): Option<Row> {
    var cells := Split(line, '\t');
    if !IsKey(cells[0]) || |cells| < 2 then None
    else
      match DecodeCells(cells[1..])
      case None => None
      case Some(values) => Some(Row(cells[0], values))
  }

  function ParseRows(lines: seq<string>): Option<seq<Row>> {
    if lines == [] then Some([])
    else
      match ParseRow(lines[0])
      case None => None
      case Some(row) =>
        match ParseRows(lines[1..])
        case None => None
        case Some(rest) => Some([row] + rest)
  }

  function AddRow(rows: Rows, row: Row): Rows {
    rows[row.key := (if row.key in rows then rows[row.key] else []) + [row.cells]]
  }

  function Grouped(rows: seq<Row>): Rows {
    if rows == [] then map[] else AddRow(Grouped(rows[..|rows| - 1]), rows[|rows| - 1])
  }

  /** The cells of the rows with one key, in order. */
  function Under(rows: seq<Row>, key: string): seq<seq<seq<Byte>>> {
    if rows == [] then []
    else
      var rest := Under(rows[..|rows| - 1], key);
      if rows[|rows| - 1].key == key then rest + [rows[|rows| - 1].cells] else rest
  }

  /** Grouping keeps all rows, in order under each key, and invents none. */
  lemma {:induction false} GroupedUnder(rows: seq<Row>, key: string)
    ensures key in Grouped(rows) <==> Under(rows, key) != []
    ensures key in Grouped(rows) ==> Grouped(rows)[key] == Under(rows, key)
  {
    if rows != [] {
      GroupedUnder(rows[..|rows| - 1], key);
    }
  }

  // Parsing

  function IndexFrom(lines: seq<string>, line: string, start: nat): Option<nat>
    requires start <= |lines|
    ensures var i := IndexFrom(lines, line, start);
      i.Some? ==> start <= i.value < |lines| && lines[i.value] == line
    decreases |lines| - start
  {
    if start == |lines| then None
    else if lines[start] == line then Some(start)
    else IndexFrom(lines, line, start + 1)
  }

  lemma {:induction false} IndexFound(lines: seq<string>, line: string, start: nat, i: nat)
    requires start <= i < |lines| && lines[i] == line
    requires forall j :: start <= j < i ==> lines[j] != line
    ensures IndexFrom(lines, line, start) == Some(i)
    decreases i - start
  {
    if start < i {
      IndexFound(lines, line, start + 1, i);
    }
  }

  function One(rows: Rows, name: string): Option<string> {
    if name !in rows || |rows[name]| != 1 || |rows[name][0]| != 1 then None
    else
      match Utf8.Decode(rows[name][0][0])
      case Text(text) => Some(text)
      case _ => None
  }

  /** What the status row says of an answer. */
  function Judge(rows: Rows): Result<Rows> {
    match One(rows, "status")
    case None => Err(Protocol)
    case Some(status) =>
      if status == "error" then
        if One(rows, "code").Some? && One(rows, "message").Some? then
          Err(Remote(One(rows, "code").value, One(rows, "message").value))
        else Err(Protocol)
      else if status != "ok" then Err(Protocol)
      else Ok(rows)
  }

  function ParseLines(lines: seq<string>, token: string): Result<Rows> {
    match IndexFrom(lines, Begin(token), 0)
    case None => Err(Protocol)
    case Some(first) =>
      match IndexFrom(lines, End(token), first + 1)
      case None => Err(Protocol)
      case Some(last) =>
        if exists i :: last < i < |lines| && lines[i] != "" then Err(Protocol)
        else
          match ParseRows(lines[first + 1..last])
          case None => Err(Protocol)
          case Some(rows) => Judge(Grouped(rows))
  }

  function ParseFileResponse(output: string, token: string): Result<Rows> {
    if |Utf8.Encode(output)| > MAX_TEXT_BYTES then Err(Protocol)
    else ParseLines(Split(DropReturns(UnifyEnds(output)), '\n'), token)
  }

  method ParseFileOutput(output: string, token: string) returns (r: Result<Rows>)
    ensures r == ParseFileResponse(output, token)
  {
    hide Split, UnifyEnds, DropReturns, Utf8.Encode, ParseRows, Judge, Grouped;
    if |Utf8.Encode(output)| > MAX_TEXT_BYTES {
      return Err(Protocol);
    }
    var lines := Split(DropReturns(UnifyEnds(output)), '\n');
    var first := IndexFrom(lines, Begin(token), 0);
    if first == None {
      return Err(Protocol);
    }
    var last := IndexFrom(lines, End(token), first.value + 1);
    if last == None {
      return Err(Protocol);
    }
    if exists i :: last.value < i < |lines| && lines[i] != "" {
      return Err(Protocol);
    }
    var parsed := CollectRows(lines[first.value + 1..last.value]);
    if parsed == None {
      return Err(Protocol);
    }
    r := Judge(parsed.value);
  }

  /** The rows between the markers, gathered by key; nothing when one is malformed. */
  method CollectRows(between: seq<string>) returns (parsed: Option<Rows>)
    ensures parsed == match ParseRows(between) case None => None case Some(rows) => Some(Grouped(rows))
  {
    hide ParseRow, AddRow;
    var gathered: Rows := map[];
    ghost var rows: seq<Row> := [];
    assert between[0..] == between;
    NothingBefore(ParseRows(between));
    for n := 0 to |between|
      invariant gathered == Grouped(rows)
      invariant ParseRows(between) == Before(rows, ParseRows(between[n..]))
    {
      assert between[n..][1..] == between[n + 1..];
      var row := ParseRow(between[n]);
      if row == None {
        return None;
      }
      BeforeSnoc(rows, row.value, ParseRows(between[n + 1..]));
      assert (rows + [row.value])[..|rows|] == rows;
      gathered := AddRow(gathered, row.value);
      rows := rows + [row.value];
    }
    assert between[|between|..] == [] && rows + [] == rows;
    parsed := Some(gathered);
  }

  lemma NothingBefore(rest: Option<seq<Row>>)
    ensures Before([], rest) == rest
  {
    if rest.Some? { assert [] + rest.value == rest.value; }
  }

  ghost function Before(rows: seq<Row>, rest: Option<seq<Row>>): Option<seq<Row>> {
    if rest.Some? then Some(rows + rest.value) else None
  }

  lemma BeforeSnoc(rows: seq<Row>, row: Row, rest: Option<seq<Row>>)
    ensures Before(rows, if rest.Some? then Some([row] + rest.value) else None) == Before(rows + [row], rest)
  {
    if rest.Some? { assert rows + ([row] + rest.value) == rows + [row] + rest.value; }
  }

  // What the scripts print

  function PrintCells(cells: seq<seq<Byte>>): string {
    if cells == [] then "" else "\t" + Base64.Encode(cells[0]) + PrintCells(cells[1..])
  }

  function PrintRow(row: Row): string {
    row.key + PrintCells(row.cells)
  }

  function PrintRows(rows: seq<Row>): (lines: seq<string>)
    ensures |lines| == |rows|
  {
    seq(|rows|, i requires 0 <= i < |rows| => PrintRow(rows[i]))
  }

  /** A successful answer: the begin marker, the status row, the rows, the end marker. */
  function PrintAnswer(token: string, rows: seq<Row>): seq<string> {
    ["__SERVEROPS_FILE_BEGIN_" + token + "__"] + PrintRows(rows) + ["__SERVEROPS_FILE_END_" + token + "__"]
  }

  /** The lines that the parser looks for are those that the scripts print. */
  lemma MarkersMeet(token: string)
    ensures Begin(token) == "__SERVEROPS_FILE_BEGIN_" + token + "__" && End(token) == "__SERVEROPS_FILE_END_" + token + "__"
  {
  }

  lemma AnswerMarkers(token: string, rows: seq<Row>)
    ensures PrintAnswer(token, rows) == [Begin(token)] + PrintRows(rows) + [End(token)]
  {
    hide PrintRows;
    MarkersMeet(token);
  }

  /** A row that a script may print: at least one cell under a key of at most 32 small
      letters, digits and underscores that starts with a letter. */
  predicate Sound(row: Row) {
    && row.cells != [] && 1 <= |row.key| <= 32 && 'a' <= row.key[0] <= 'z'
    && forall i :: 0 <= i < |row.key| ==> 'a' <= row.key[i] <= 'z' || '0' <= row.key[i] <= '9' || row.key[i] == '_'
  }

  lemma SoundKey(row: Row)
    ensures Sound(row) <==> IsKey(row.key) && row.cells != []
  {
    if row.key != "" { assert IsKeyStart(row.key[0]) ==> IsKeyChar(row.key[0]); }
  }

  /** Only such rows are read. */
  lemma ReadIsSound(line: string)
    requires ParseRow(line).Some?
    ensures Sound(ParseRow(line).value) && ParseRow(line).value.key == Split(line, '\t')[0]
  {
    hide Split, Sound, IsKey;
    var cells := Split(line, '\t');
    CellsCounted(cells[1..]);
    SoundKey(ParseRow(line).value);
  }

  lemma {:induction false} CellsCounted(cells: seq<string>)
    ensures DecodeCells(cells).Some? ==> |DecodeCells(cells).value| == |cells|
  {
    hide Base64.Decode;
    if cells != [] { CellsCounted(cells[1..]); }
  }

  function EncodeCells(cells: seq<seq<Byte>>): (texts: seq<string>)
    ensures |texts| == |cells|
  {
    seq(|cells|, i requires 0 <= i < |cells| => Base64.Encode(cells[i]))
  }

  lemma {:induction false} CellsDecoded(cells: seq<seq<Byte>>)
    ensures DecodeCells(EncodeCells(cells)) == Some(cells)
  {
    hide Base64.Encode, Base64.Decode;
    if cells == [] {
      assert EncodeCells(cells) == [];
    } else {
      Base64.DecodeEncoded(cells[0]);
      assert EncodeCells(cells)[1..] == EncodeCells(cells[1..]);
      CellsDecoded(cells[1..]);
      assert cells == [cells[0]] + cells[1..];
    }
  }

  lemma CellClean(cell: seq<Byte>)
    ensures '\t' !in Base64.Encode(cell) && '\n' !in Base64.Encode(cell) && '\r' !in Base64.Encode(cell)
  {
    Base64.EncodedLetters(cell);
    assert !Base64.IsLetter('\t') && !Base64.IsLetter('\n') && !Base64.IsLetter('\r');
  }

  lemma {:induction false} CellsSplit(front: string, cells: seq<seq<Byte>>)
    requires '\t' !in front
    ensures Split(front + PrintCells(cells), '\t') == [front] + EncodeCells(cells)
    decreases |cells|
  {
    hide Base64.Encode;
    if cells == [] {
      assert front + PrintCells(cells) == front && EncodeCells(cells) == [];
      SplitLast(front, '\t');
    } else {
      var text := Base64.Encode(cells[0]);
      CellClean(cells[0]);
      CellsSplit(text, cells[1..]);
      assert front + PrintCells(cells) == front + ['\t'] + (text + PrintCells(cells[1..]));
      SplitFront(front, '\t', text + PrintCells(cells[1..]));
      assert EncodeCells(cells) == [text] + EncodeCells(cells[1..]);
    }
  }

  lemma KeyClean(key: string)
    requires IsKey(key)
    ensures '\t' !in key && '\n' !in key && '\r' !in key
  {
    forall i | 0 <= i < |key| ensures IsKeyChar(key[i]) {}
    assert !IsKeyChar('\t') && !IsKeyChar('\n') && !IsKeyChar('\r');
  }

  lemma RowParsed(row: Row)
    requires Sound(row)
    ensures ParseRow(PrintRow(row)) == Some(row)
  {
    hide IsKey, Split, PrintCells, DecodeCells, Sound;
    SoundKey(row);
    KeyClean(row.key);
    CellsSplit(row.key, row.cells);
    CellsDecoded(row.cells);
    assert ([row.key] + EncodeCells(row.cells))[1..] == EncodeCells(row.cells);
  }

  lemma {:induction false} RowsParsed(rows: seq<Row>)
    requires forall r <- rows :: Sound(r)
    ensures ParseRows(PrintRows(rows)) == Some(rows)
  {
    hide PrintRow, ParseRow, Sound;
    if rows == [] {
      assert PrintRows(rows) == [];
    } else {
      assert rows[0] in rows && forall r <- rows[1..] :: r in rows;
      RowParsed(rows[0]);
      assert PrintRows(rows)[1..] == PrintRows(rows[1..]);
      RowsParsed(rows[1..]);
      assert rows == [rows[0]] + rows[1..];
    }
  }

  lemma {:induction false} CellsClean(cells: seq<seq<Byte>>)
    ensures '\n' !in PrintCells(cells)
    ensures cells != [] ==> PrintCells(cells) != "" && PrintCells(cells)[0] == '\t'
  {
    hide Base64.Encode;
    if cells != [] {
      CellClean(cells[0]);
      CellsClean(cells[1..]);
    }
  }

  /** A row is one line, and no marker. */
  lemma RowClean(row: Row, token: string)
    requires Sound(row) && '\t' !in token
    ensures '\n' !in PrintRow(row) && PrintRow(row) != End(token)
  {
    SoundKey(row);
    KeyClean(row.key);
    CellsClean(row.cells);
    assert PrintRow(row)[|row.key|] == '\t';
    assert forall c <- "__SERVEROPS_FILE_END_" :: c != '\t';
    assert '\t' !in End(token) by {
      assert forall c <- End(token) :: c in "__SERVEROPS_FILE_END_" || c in token || c == '_';
    }
  }

  predicate IsToken(token: string) {
    '\t' !in token && '\n' !in token
  }

  lemma MarkersClean(token: string)
    requires IsToken(token)
    ensures '\n' !in Begin(token) && '\n' !in End(token)
  {
    assert forall c <- "__SERVEROPS_FILE_END_" :: c != '\n';
    assert forall c <- "__SERVEROPS_FILE_BEGIN_" :: c != '\n';
    assert forall c <- End(token) :: c in "__SERVEROPS_FILE_END_" || c in token || c == '_';
    assert forall c <- Begin(token) :: c in "__SERVEROPS_FILE_BEGIN_" || c in token || c == '_';
  }

  /** FILE ROUND TRIP. Whatever came before, without the begin line, and wherever
      carriage returns were put in: parsing what a script printed gives back its
      rows, judged by their status row. */
  lemma FileRoundTrip(output: string, token: string, noise: seq<string>, rows: seq<Row>)
    requires IsToken(token) && (forall r <- rows :: Sound(r))
    requires forall l <- noise :: '\n' !in l && l != "__SERVEROPS_FILE_BEGIN_" + token + "__"
    requires DropReturns(output) == PrintLines(noise + PrintAnswer(token, rows))
    requires |Utf8.Encode(output)| <= 8_388_608
    ensures ParseFileResponse(output, token) == Judge(Grouped(rows))
  {
    hide DropReturns, UnifyEnds, PrintLines, Split, Utf8.Encode, Judge, Grouped, PrintRow, Sound, IsToken, ParseRows,
      Begin, End, PrintAnswer;
    AnswerMarkers(token, rows);
    MarkersMeet(token);
    var answer := PrintAnswer(token, rows);
    var lines := noise + answer + [""];
    ReturnsDropped(output);
    MarkersClean(token);
    forall l | l in noise + answer ensures '\n' !in l {
      if l in PrintRows(rows) {
        var i :| 0 <= i < |rows| && l == PrintRow(rows[i]);
        assert rows[i] in rows;
        RowIsLine(rows[i], token);
      }
    }
    LinesFound(noise + answer);
    AnswerFound(noise, token, rows);
    RowsParsed(rows);
  }

  lemma RowIsLine(row: Row, token: string)
    requires Sound(row) && IsToken(token)
    ensures '\n' !in PrintRow(row) && PrintRow(row) != End(token)
  {
    RowClean(row, token);
  }

  lemma AnswerFound(noise: seq<string>, token: string, rows: seq<Row>)
    requires IsToken(token) && (forall r <- rows :: Sound(r))
    requires forall l <- noise :: l != Begin(token)
    ensures var lines := noise + PrintAnswer(token, rows) + [""];
      ParseLines(lines, token) ==
        match ParseRows(PrintRows(rows)) case None => Err(Protocol) case Some(rows) => Judge(Grouped(rows))
  {
    hide Judge, Grouped, PrintRow, Sound, IsToken, ParseRows, Begin, End, PrintAnswer;
    AnswerMarkers(token, rows);
    var lines := noise + PrintAnswer(token, rows) + [""];
    var first, last := |noise|, |noise| + 1 + |rows|;
    assert lines[first] == Begin(token) && lines[last] == End(token) && lines[last + 1] == "" && |lines| == last + 2;
    forall j | 0 <= j < first ensures lines[j] != Begin(token) { assert lines[j] in noise; }
    IndexFound(lines, Begin(token), 0, first);
    forall j | first + 1 <= j < last ensures lines[j] != End(token) {
      assert lines[j] == PrintRow(rows[j - first - 1]) && rows[j - first - 1] in rows;
      RowIsLine(rows[j - first - 1], token);
    }
    IndexFound(lines, End(token), first + 1, last);
    assert lines[first + 1..last] == PrintRows(rows);
  }

  /** A successful answer gives every row back in order under its key; an error answer
      gives the remote code and message. */
  lemma AnswersRead(rows: seq<Row>, code: string, message: string)
    requires Under(rows, "status") == []
    ensures Judge(Grouped([Row("status", [Utf8.Encode("ok")])] + rows)) == Ok(Grouped([Row("status", [Utf8.Encode("ok")])] + rows))
    ensures Judge(Grouped([Row("status", [Utf8.Encode("error")]), Row("code", [Utf8.Encode(code)]),
                           Row("message", [Utf8.Encode(message)])]))
      == Err(Remote(code, message))
  {
    hide Utf8.Encode, Utf8.Decode, AddRow;
    Utf8.DecodeEncoded("ok");
    Utf8.DecodeEncoded("error");
    Utf8.DecodeEncoded(code);
    Utf8.DecodeEncoded(message);
    var status := Row("status", [Utf8.Encode("ok")]);
    UnderFirst(status, rows, "status");
    GroupedUnder([status] + rows, "status");
    var error := Row("status", [Utf8.Encode("error")]);
    var codeRow, messageRow := Row("code", [Utf8.Encode(code)]), Row("message", [Utf8.Encode(message)]);
    var failed := [error, codeRow, messageRow];
    UnderThree(error, codeRow, messageRow);
    GroupedUnder(failed, "status");
    GroupedUnder(failed, "code");
    GroupedUnder(failed, "message");
  }

  /** An answer without exactly one status, or with a status that is neither ok nor error,
      is refused. */
  lemma StatusRefused(rows: Rows, status: string)
    requires status != "ok" && status != "error"
    ensures "status" !in rows || |rows["status"]| != 1 ==> Judge(rows) == Err(Protocol)
    ensures "status" in rows && rows["status"] == [[Utf8.Encode(status)]] ==> Judge(rows) == Err(Protocol)
  {
    hide Utf8.Encode, Utf8.Decode;
    Utf8.DecodeEncoded(status);
  }

  lemma UnderThree(a: Row, b: Row, c: Row)
    requires a.key != b.key && b.key != c.key && a.key != c.key
    ensures Under([a, b, c], a.key) == [a.cells]
    ensures Under([a, b, c], b.key) == [b.cells]
    ensures Under([a, b, c], c.key) == [c.cells]
  {
    assert [a, b, c][..2] == [a, b] && [a, b][..1] == [a] && [a][..0] == [];
    forall key ensures Under([a], key) == if a.key == key then [a.cells] else [] {}
    forall key ensures Under([a, b], key) == Under([a], key) + if b.key == key then [b.cells] else [] {}
    forall key ensures Under([a, b, c], key) == Under([a, b], key) + if c.key == key then [c.cells] else [] {}
  }

  lemma {:induction false} UnderFirst(first: Row, rows: seq<Row>, key: string)
    ensures Under([first] + rows, key) == (if first.key == key then [first.cells] else []) + Under(rows, key)
  {
    var all := [first] + rows;
    if rows == [] {
      assert all == [first] && all[..0] == [];
    } else {
      assert all[..|all| - 1] == [first] + rows[..|rows| - 1] && all[|all| - 1] == rows[|rows| - 1];
      UnderFirst(first, rows[..|rows| - 1], key);
    }
  }
}
