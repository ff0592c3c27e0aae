/**
 * docs/.vitepress/theme/utils/csvParser.js: the member-list CSV reader used
 * by the site. `parseCSV` turns the text into one object per data line,
 * keyed by the header names; `extractGithubUsernames` collects the `id`
 * column; `isOrganizationMember` tests a login against that set. The
 * reader splits on every comma and every newline: there is no quoting.
 */
module CsvParser {
  import opened Wrappers
  import opened Strings
  import opened Collections

  /** One parsed line: header name to cell text (a plain JavaScript object). */
  type Row = map<string, string>

  /** `parts.map(p => p.trim())` */
  function TrimAll(parts: seq<string>): (r: seq<string>)
    ensures |r| == |parts|
    ensures forall i :: 0 <= i < |r| ==> r[i] == Trim(parts[i])
  {
    seq(|parts|, i requires 0 <= i < |parts| => Trim(parts[i]))
  }

  /** The trimmed comma-separated cells of one line. */
  function Cells(line: string): seq<string>
  {
    TrimAll(Split(line, ","))
  }

  /** `values[index] || ''`: a missing cell and an empty one both read as `''`. */
  function CellAt(values: seq<string>, index: int): string
  {
    if 0 <= index < |values| then values[index] else ""
  }

  /**
   * The row that `headers.forEach((header, index) => row[header] = ...)`
   * builds: every header gets the cell at its position, and a header that
   * occurs twice keeps the cell of its last occurrence.
   */
  function RowOf(headers: seq<string>, values: seq<string>): (row: Row)
    ensures row.Keys == set h | h in headers
    decreases |headers|
  {
    if headers == [] then map[]
    else
      var n := |headers| - 1;
      var row := RowOf(headers[..n], values);
      assert forall h :: h in headers <==> h in headers[..n] || h == headers[n];
      row[headers[n] := CellAt(values, n)]
  }

  /** The cell a header maps to comes from the header's last position. */
  lemma {:induction false} RowOfValue(headers: seq<string>, values: seq<string>, i: int)
    requires 0 <= i < |headers|
    requires forall j :: i < j < |headers| ==> headers[j] != headers[i]
    ensures RowOf(headers, values)[headers[i]] == CellAt(values, i)
    decreases |headers|
  {
    var n := |headers| - 1;
    if i < n {
      RowOfValue(headers[..n], values, i);
    }
  }

  /** A data line that `if (!line) continue` skips: empty once trimmed. */
  predicate IsBlank(line: string)
  {
    Trim(line) == []
  }

  /** The rows of the data lines, in order; blank lines produce nothing. */
  function Rows(headers: seq<string>, lines: seq<string>): seq<Row>
    decreases |lines|
  {
    if lines == [] then []
    else
      var n := |lines| - 1;
      var line := Trim(lines[n]);
      Rows(headers, lines[..n]) + (if line == [] then [] else [RowOf(headers, Cells(line))])
  }

  /** The lines of the trimmed text, split on every `'\n'`. */
  function Lines(content: string): (lines: seq<string>)
    ensures |lines| >= 1
  {
    Split(Trim(content), "\n")
  }

  /** What `parseCSV(content)` returns. */
  function ParsedRows(content: string): seq<Row>
  {
    var lines := Lines(content);
    if |lines| < 2 then [] else Rows(Cells(lines[0]), lines[1..])
  }

  /** The `headers.forEach` loop that fills one row. */
  method BuildRow(headers: seq<string>, values: seq<string>) returns (row: Row)
    ensures row == RowOf(headers, values)
  {
    row := map[];
    var index := 0;
    while index < |headers|
      invariant 0 <= index <= |headers|
      invariant row == RowOf(headers[..index], values)
    {
      assert headers[..index + 1][..index] == headers[..index];
      row := row[headers[index] := CellAt(values, index)];
      index := index + 1;
    }
    assert headers[..|headers|] == headers;
  }

  /** One more data line adds its row, unless it is blank. */
  lemma RowsStep(headers: seq<string>, lines: seq<string>, i: int)
    requires 1 <= i < |lines|
    ensures Rows(headers, lines[1..i + 1]) ==
      Rows(headers, lines[1..i]) + (if Trim(lines[i]) == [] then [] else [RowOf(headers, Cells(Trim(lines[i])))])
  {
    assert lines[1..i + 1][..i - 1] == lines[1..i];
  }

  /** `parseCSV`: the header line, then one row per non-blank data line. */
  method ParseCsv(content: string) returns (data: seq<Row>)
    ensures data == ParsedRows(content)
  {
    var lines := Lines(content);
    if |lines| < 2 {
      return [];
    }
    var headers := Cells(lines[0]);
    data := [];
    var i := 1;
    while i < |lines|
      invariant 1 <= i <= |lines|
      invariant data == Rows(headers, lines[1..i])
    {
      RowsStep(headers, lines, i);
      var line := Trim(lines[i]);
      if line != [] {
        var row := BuildRow(headers, Cells(line));
        data := data + [row];
      }
      i := i + 1;
    }
    assert lines[1..|lines|] == lines[1..];
  }

  // ---------------------------------------------------------------------
  // What the parser promises

  /** Text with at most one line once trimmed yields no rows. */
  lemma SingleLineNoRows(content: string)
    requires '\n' !in Trim(content)
    ensures ParsedRows(content) == []
  {
    SplitNoSeparator(Trim(content), '\n');
  }

  /** The rows built from a list of lines, one per line. */
  function RowsOfLines(headers: seq<string>, lines: seq<string>): (rows: seq<Row>)
    ensures |rows| == |lines|
  {
    seq(|lines|, k requires 0 <= k < |lines| => RowOf(headers, Cells(Trim(lines[k]))))
  }

  /** Blank lines are skipped and every other line gives exactly one row, in order. */
  lemma {:induction false} RowsSkipBlank(headers: seq<string>, lines: seq<string>)
    ensures Rows(headers, lines) == RowsOfLines(headers, Filter(lines, (l: string) => !IsBlank(l)))
    decreases |lines|
  {
    if lines != [] {
      var n := |lines| - 1;
      RowsSkipBlank(headers, lines[..n]);
    }
  }

  /** Every row has exactly the header names as keys. */
  lemma RowKeysAreHeaders(content: string, k: int)
    requires 0 <= k < |ParsedRows(content)|
    ensures var lines := Lines(content);
      |lines| >= 2 && ParsedRows(content)[k].Keys == set h | h in Cells(lines[0])
  {
    var lines := Lines(content);
    var headers := Cells(lines[0]);
    var p := (l: string) => !IsBlank(l);
    RowsSkipBlank(headers, lines[1..]);
    var kept := Filter(lines[1..], p);
    assert ParsedRows(content)[k] == RowOf(headers, Cells(Trim(kept[k])));
  }

  /**
   * Cells are trimmed, contain no comma (there is no quoting), and the
   * untrimmed pieces joined with commas give the line back.
   */
  lemma CellsOfLine(line: string)
    ensures Join(Split(line, ","), ",") == line
    ensures forall i :: 0 <= i < |Cells(line)| ==>
      ',' !in Cells(line)[i] && Trim(Cells(line)[i]) == Cells(line)[i]
  {
    JoinSplit(line, ",");
    forall i | 0 <= i < |Cells(line)|
      ensures ',' !in Cells(line)[i] && Trim(Cells(line)[i]) == Cells(line)[i]
    {
      SplitPiecesLackSeparator(line, ',', i);
      TrimIdempotent(Split(line, ",")[i]);
      TrimIsPiece(Split(line, ",")[i]);
    }
  }

  // ---------------------------------------------------------------------
  // Usernames

  /** `row.id && row.id.trim()`: the row has a non-blank `id` cell. */
  predicate HasId(row: Row)
  {
    "id" in row && Trim(row["id"]) != []
  }

  /** The set `extractGithubUsernames` returns. */
  function Usernames(data: seq<Row>): set<string>
  {
    set i | 0 <= i < |data| && HasId(data[i]) :: Trim(data[i]["id"])
  }

  /** `extractGithubUsernames`: the trimmed, non-empty `id` of every row. */
  method ExtractGithubUsernames(data: seq<Row>) returns (usernames: set<string>)
    ensures usernames == Usernames(data)
    ensures forall u :: u in usernames <==> exists row :: row in data && HasId(row) && Trim(row["id"]) == u
  {
    usernames := {};
    var i := 0;
    while i < |data|
      invariant 0 <= i <= |data|
      invariant usernames == Usernames(data[..i])
    {
      assert data[..i + 1][..i] == data[..i];
      if "id" in data[i] && Trim(data[i]["id"]) != [] {
        usernames := usernames + {Trim(data[i]["id"])};
      }
      i := i + 1;
    }
    assert data[..|data|] == data;
  }

  /** Every extracted username is non-empty and already trimmed. */
  lemma UsernamesAreTrimmed(data: seq<Row>, u: string)
    requires u in Usernames(data)
    ensures u != [] && Trim(u) == u
  {
    var i :| 0 <= i < |data| && HasId(data[i]) && Trim(data[i]["id"]) == u;
    TrimIdempotent(data[i]["id"]);
  }

  /**
   * `isOrganizationMember(username, organizationMembers)`: an absent or
   * empty username, or an absent set, is never a member.
   */
  function IsOrganizationMember(username: Option<string>, members: Option<set<string>>): (r: bool)
  {
    if username.None? || username.value == "" || members.None? then false
    else username.value in members.value
  }

  /**
   * Against the set read from a CSV: a login is a member exactly when it
   * is non-empty and some row's trimmed `id` equals it.
   */
  lemma MemberOfCsv(login: string, data: seq<Row>)
    ensures IsOrganizationMember(Some(login), Some(Usernames(data)))
        <==> login != [] && exists i :: 0 <= i < |data| && HasId(data[i]) && Trim(data[i]["id"]) == login
  {
  }

  /** Without a username or without a member set, nobody is a member. */
  lemma NoMemberWithoutInput(username: Option<string>, members: Option<set<string>>)
    requires username.None? || username == Some("") || members.None?
    ensures !IsOrganizationMember(username, members)
  {
  }
}
