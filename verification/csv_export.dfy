/**
 * The CSV export: a header line, then one line per transcript message with
 * the role, the escaped content in quotes and a timestamp in quotes. The
 * export builds the text with `+=` in a loop; `BuildCsv` keeps that loop and
 * `CsvDocument` is what it builds. The lemmas show the text splits into
 * exactly those lines and that a CSV reader gets each field back.
 */
module CsvExport {
  import opened ChatTypes

  const HeaderLine: string := "Role,Content,Timestamp"
  const Header: string := HeaderLine + "\n"

  /** `s.replace(/c/g, by)`: every occurrence of `c` replaced by `rep`. */
  function ReplaceChar(s: string, c: char, rep: string): (r: string)
    ensures c !in rep ==> c !in r
  {
    if s == [] then [] else (if s[0] == c then rep else [s[0]]) + ReplaceChar(s[1..], c, rep)
  }

  lemma {:induction false} ReplaceCharConcat(a: string, b: string, c: char, rep: string)
    ensures ReplaceChar(a + b, c, rep) == ReplaceChar(a, c, rep) + ReplaceChar(b, c, rep)
  {
    if a == [] {
      assert a + b == b;
    } else {
      assert (a + b)[0] == a[0] && (a + b)[1..] == a[1..] + b;
      ReplaceCharConcat(a[1..], b, c, rep);
    }
  }

  /** The content cell: `.replace(/"/g, '""').replace(/\n/g, ' ')`. */
  function EscapeContent(s: string): (r: string)
    ensures '\n' !in r
  {
    ReplaceChar(ReplaceChar(s, '"', "\"\""), '\n', " ")
  }

  /** What is left of a message's content once read back from the CSV: its
      newlines have become spaces. */
  function Flatten(s: string): string
  {
    ReplaceChar(s, '\n', " ")
  }

  /** The same escape done one character at a time. */
  function EscapeChar(ch: char): string
  {
    if ch == '"' then "\"\"" else if ch == '\n' then " " else [ch]
  }

  function EscapeEach(s: string): string
  {
    if s == [] then [] else EscapeChar(s[0]) + EscapeEach(s[1..])
  }

  /** The two global replacements equal one pass that escapes each
      character: the second pass never sees a newline made by the first. */
  lemma {:induction false} EscapeContentIsOnePass(s: string)
    ensures EscapeContent(s) == EscapeEach(s)
  {
    if s != [] {
      var head := if s[0] == '"' then "\"\"" else [s[0]];
      var tail := ReplaceChar(s[1..], '"', "\"\"");
      assert ReplaceChar(s, '"', "\"\"") == head + tail;
      ReplaceCharConcat(head, tail, '\n', " ");
      if s[0] == '"' {
        assert ReplaceChar(head, '\n', " ") == "\"\"" by {
          assert head[1..][1..] == [];
          assert head[1..] == ['"'];
        }
      } else {
        assert head[1..] == [];
      }
      EscapeContentIsOnePass(s[1..]);
    }
  }

  function CountChar(s: string, c: char): nat
  {
    if s == [] then 0 else (if s[0] == c then 1 else 0) + CountChar(s[1..], c)
  }

  lemma {:induction false} CountCharConcat(a: string, b: string, c: char)
    ensures CountChar(a + b, c) == CountChar(a, c) + CountChar(b, c)
  {
    if a == [] {
      assert a + b == b;
    } else {
      assert (a + b)[0] == a[0] && (a + b)[1..] == a[1..] + b;
      CountCharConcat(a[1..], b, c);
    }
  }

  /** Every double quote of the content appears doubled in the cell, and the
      cell holds no other double quote. */
  lemma {:induction false} EscapeDoublesQuotes(s: string)
    ensures CountChar(EscapeContent(s), '"') == 2 * CountChar(s, '"')
    ensures |EscapeContent(s)| == |s| + CountChar(s, '"')
  {
    EscapeContentIsOnePass(s);
    EscapeEachDoublesQuotes(s);
  }

  lemma {:induction false} EscapeEachDoublesQuotes(s: string)
    ensures CountChar(EscapeEach(s), '"') == 2 * CountChar(s, '"')
    ensures |EscapeEach(s)| == |s| + CountChar(s, '"')
  {
    if s != [] {
      CountCharConcat(EscapeChar(s[0]), EscapeEach(s[1..]), '"');
      var e := EscapeChar(s[0]);
      if s[0] == '"' {
        assert CountChar(e, '"') == 2 by {
          assert e[1..][1..] == [];
          assert e[1..] == ['"'];
        }
      } else {
        assert e[1..] == [];
      }
      EscapeEachDoublesQuotes(s[1..]);
    }
  }

  /**
   * Reads a quoted CSV cell whose opening quote is already consumed: `""`
   * stands for one quote and a lone `"` closes the cell. Gives the cell's
   * text and what follows the closing quote.
   */
  function ParseQuoted(s: string): Option<(string, string)>
  {
    if s == [] then None
    else if s[0] == '"' then
      if |s| >= 2 && s[1] == '"' then
        match ParseQuoted(s[2..])
        case None => None
        case Some(cell) => Some(("\"" + cell.0, cell.1))
      else Some(("", s[1..]))
    else
      match ParseQuoted(s[1..])
      case None => None
      case Some(cell) => Some(([s[0]] + cell.0, cell.1))
  }

  /** Reading an escaped cell back gives the content with its newlines
      flattened, provided the closing quote is not followed by a quote. */
  lemma {:induction false} ParseEscaped(c: string, rest: string)
    requires rest == [] || rest[0] != '"'
    ensures ParseQuoted(EscapeEach(c) + "\"" + rest) == Some((Flatten(c), rest))
  {
    var s := EscapeEach(c) + "\"" + rest;
    if c == [] {
      assert s == "\"" + rest;
      assert s[1..] == rest;
    } else {
      var t := EscapeEach(c[1..]) + "\"" + rest;
      assert s == EscapeChar(c[0]) + t;
      ParseEscaped(c[1..], rest);
      assert Flatten(c) == (if c[0] == '\n' then " " else [c[0]]) + Flatten(c[1..]);
      if c[0] == '"' {
        assert s[2..] == t;
      } else {
        assert s[1..] == t;
      }
    }
  }

  /** A cell without quotes reads back unchanged. */
  lemma {:induction false} ParsePlain(t: string, rest: string)
    requires '"' !in t
    requires rest == [] || rest[0] != '"'
    ensures ParseQuoted(t + "\"" + rest) == Some((t, rest))
  {
    var s := t + "\"" + rest;
    if t == [] {
      assert s == "\"" + rest;
      assert s[1..] == rest;
    } else {
      assert s[1..] == t[1..] + "\"" + rest;
      ParsePlain(t[1..], rest);
      assert [t[0]] + t[1..] == t;
    }
  }

  /** One data line without its newline: role, quoted content, quoted time. */
  function RowLine(m: Message, stamp: string): string
  {
    m.role + ",\"" + EscapeContent(m.content) + "\",\"" + stamp + "\""
  }

  function Row(m: Message, stamp: string): string
  {
    RowLine(m, stamp) + "\n"
  }

  /** The rows of the first `n` messages; message `k` is stamped with
      `stamp(createdAt, k)`, the creation time moved on by `k` minutes. */
  function Rows(msgs: seq<Message>, createdAt: string, stamp: (string, nat) -> string, n: nat): (r: string)
    requires n <= |msgs|
  {
    if n == 0 then "" else Rows(msgs, createdAt, stamp, n - 1) + Row(msgs[n - 1], stamp(createdAt, n - 1))
  }

  /** The rows text is empty or ends with a line break. */
  lemma RowsEndInNewline(msgs: seq<Message>, createdAt: string, stamp: (string, nat) -> string, n: nat)
    requires n <= |msgs|
    ensures var r := Rows(msgs, createdAt, stamp, n); r == [] || r[|r| - 1] == '\n'
  {
    if n > 0 {
      var row := Row(msgs[n - 1], stamp(createdAt, n - 1));
      assert row[|row| - 1] == '\n';
    }
  }

  /** The whole export of a transcript. */
  function CsvDocument(msgs: seq<Message>, createdAt: string, stamp: (string, nat) -> string): string
  {
    Header + Rows(msgs, createdAt, stamp, |msgs|)
  }

  /** Concatenation is associative; called where the solver needs the
      regrouping of an appended row or line list. */
  lemma AppendAssoc<T>(a: seq<T>, b: seq<T>, c: seq<T>)
    ensures (a + b) + c == a + (b + c)
  {
  }


  /** The export loop: starts from the header and appends one row per
      message, in transcript order. */
  method BuildCsv(msgs: seq<Message>, createdAt: string, stamp: (string, nat) -> string) returns (csv: string)
    ensures csv == CsvDocument(msgs, createdAt, stamp)
  {
    csv := Header;
    ghost var rows := "";
    var i := 0;
    while i < |msgs|
      invariant i <= |msgs|
      invariant rows == Rows(msgs, createdAt, stamp, i)
      invariant csv == Header + rows
    {
      var row := Row(msgs[i], stamp(createdAt, i));
      AppendAssoc(Header, rows, row);
      csv := csv + row;
      rows := rows + row;
      i := i + 1;
    }
  }


  /** Position of the first `c` in `s`, or |s| when there is none. */
  function IndexOf(s: string, c: char): (k: nat)
    ensures k <= |s|
    ensures forall j :: 0 <= j < k ==> s[j] != c
    ensures k < |s| ==> s[k] == c
  {
    if s == [] then 0 else if s[0] == c then 0 else 1 + IndexOf(s[1..], c)
  }

  lemma IndexOfPrefix(a: string, b: string, c: char)
    requires c !in a
    ensures IndexOf(a + [c] + b, c) == |a|
  {
    var s := a + [c] + b;
    var k := IndexOf(s, c);
    assert s[|a|] == c;
  }

  lemma IndexOfExtend(x: string, y: string, c: char)
    requires IndexOf(x, c) < |x|
    ensures IndexOf(x + y, c) == IndexOf(x, c)
  {
    var k := IndexOf(x, c);
    var k' := IndexOf(x + y, c);
    assert (x + y)[k] == c;
    if k' < k {
      assert x[k'] == (x + y)[k'];
    }
  }

  /** The text split into its newline-terminated lines (a last line without
      a newline counts too). */
  function Lines(s: string): seq<string>
    decreases |s|
  {
    if s == [] then []
    else if IndexOf(s, '\n') == |s| then [s]
    else [s[..IndexOf(s, '\n')]] + Lines(s[IndexOf(s, '\n') + 1..])
  }

  /** A `c` at position `j` bounds the first `c`. */
  lemma IndexOfFound(s: string, c: char, j: nat)
    requires j < |s| && s[j] == c
    ensures IndexOf(s, c) <= j
  {
  }

  lemma {:induction false} LinesUnfold(s: string)
    requires IndexOf(s, '\n') < |s|
    ensures Lines(s) == [s[..IndexOf(s, '\n')]] + Lines(s[IndexOf(s, '\n') + 1..])
  {
  }

  /** Splitting off the first line of a newline-terminated `x` commutes
      with appending `y`. */
  lemma LinesHeadSplit(x: string, y: string)
    requires x != [] && x[|x| - 1] == '\n'
    ensures var k := IndexOf(x, '\n');
            k < |x|
            && Lines(x) == [x[..k]] + Lines(x[k + 1..])
            && Lines(x + y) == [x[..k]] + Lines(x[k + 1..] + y)
  {
    var k := IndexOf(x, '\n');
    IndexOfFound(x, '\n', |x| - 1);
    var xy := x + y;
    IndexOfExtend(x, y, '\n');
    assert xy[..k] == x[..k];
    assert xy[k + 1..] == x[k + 1..] + y;
    LinesUnfold(xy);
    LinesUnfold(x);
  }

  lemma {:induction false} LinesConcat(x: string, y: string)
    requires x == [] || x[|x| - 1] == '\n'
    ensures Lines(x + y) == Lines(x) + Lines(y)
    decreases |x|
  {
    if x == [] {
      assert x + y == y;
    } else {
      var k := IndexOf(x, '\n');
      LinesHeadSplit(x, y);
      var rest := x[k + 1..];
      assert rest == [] || rest[|rest| - 1] == '\n';
      LinesConcat(rest, y);
      AppendAssoc([x[..k]], Lines(rest), Lines(y));
    }
  }


  lemma LinesOfOneLine(a: string)
    requires '\n' !in a
    ensures Lines(a + "\n") == [a]
  {
    IndexOfPrefix(a, [], '\n');
    assert a + "\n" == a + ['\n'] + [];
    assert (a + "\n")[..|a|] == a;
    assert (a + "\n")[|a| + 1..] == [];
  }

  /** Messages whose role and timestamp hold no newline. */
  predicate OneLineEach(msgs: seq<Message>, createdAt: string, stamp: (string, nat) -> string)
  {
    forall k :: 0 <= k < |msgs| ==> '\n' !in msgs[k].role && '\n' !in stamp(createdAt, k)
  }

  lemma RowLineOneLine(m: Message, stamp: string)
    requires '\n' !in m.role && '\n' !in stamp
    ensures '\n' !in RowLine(m, stamp)
  {
  }

  lemma RowsLinesStep(msgs: seq<Message>, createdAt: string, stamp: (string, nat) -> string, n: nat)
    requires 0 < n <= |msgs|
    requires '\n' !in RowLine(msgs[n - 1], stamp(createdAt, n - 1))
    ensures Lines(Rows(msgs, createdAt, stamp, n))
            == Lines(Rows(msgs, createdAt, stamp, n - 1)) + [RowLine(msgs[n - 1], stamp(createdAt, n - 1))]
  {
    var last := RowLine(msgs[n - 1], stamp(createdAt, n - 1));
    LinesConcat(Rows(msgs, createdAt, stamp, n - 1), last + "\n");
    LinesOfOneLine(last);
  }

  /** The data lines of the first `n` messages, without their newlines. */
  function DataLines(msgs: seq<Message>, createdAt: string, stamp: (string, nat) -> string, n: nat): (ls: seq<string>)
    requires n <= |msgs|
    ensures |ls| == n
    ensures forall k :: 0 <= k < n ==> ls[k] == RowLine(msgs[k], stamp(createdAt, k))
  {
    if n == 0 then [] else DataLines(msgs, createdAt, stamp, n - 1) + [RowLine(msgs[n - 1], stamp(createdAt, n - 1))]
  }

  lemma {:induction false} RowsLines(msgs: seq<Message>, createdAt: string, stamp: (string, nat) -> string, n: nat)
    requires n <= |msgs| && OneLineEach(msgs, createdAt, stamp)
    ensures Lines(Rows(msgs, createdAt, stamp, n)) == DataLines(msgs, createdAt, stamp, n)
  {
    if n > 0 {
      RowsLines(msgs, createdAt, stamp, n - 1);
      RowLineOneLine(msgs[n - 1], stamp(createdAt, n - 1));
      RowsLinesStep(msgs, createdAt, stamp, n);
    }
  }

  /** The export is the header line and then exactly one line per message,
      in transcript order, each with that message's role, escaped content
      and timestamp. */
  lemma CsvLines(msgs: seq<Message>, createdAt: string, stamp: (string, nat) -> string)
    requires OneLineEach(msgs, createdAt, stamp)
    ensures var ls := Lines(CsvDocument(msgs, createdAt, stamp));
            |ls| == |msgs| + 1 && ls[0] == HeaderLine
            && forall k :: 0 <= k < |msgs| ==> ls[k + 1] == RowLine(msgs[k], stamp(createdAt, k))
  {
    LinesConcat(Header, Rows(msgs, createdAt, stamp, |msgs|));
    LinesOfOneLine(HeaderLine);
    RowsLines(msgs, createdAt, stamp, |msgs|);
  }

  /** The fields of one data line as a CSV reader sees them. */
  datatype CsvRecord = CsvRecord(role: string, content: string, timestamp: string)

  /** Reads one data line: an unquoted role up to the first comma, then two
      quoted cells separated by a comma, then nothing. */
  function ParseRow(line: string): Option<CsvRecord>
  {
    var k := IndexOf(line, ',');
    if k == |line| then None else ParseCells(line[..k], line[k + 1..])
  }

  /** The two quoted cells after the role. */
  function ParseCells(role: string, rest: string): Option<CsvRecord>
  {
    if rest == [] || rest[0] != '"' then None
    else
      match ParseQuoted(rest[1..])
      case None => None
      case Some(content) => ParseTimeCell(role, content.0, content.1)
  }

  /** The comma and the quoted timestamp that end the line. */
  function ParseTimeCell(role: string, content: string, rest: string): Option<CsvRecord>
  {
    if |rest| < 2 || rest[0] != ',' || rest[1] != '"' then None
    else
      match ParseQuoted(rest[2..])
      case None => None
      case Some(time) => if time.1 == [] then Some(CsvRecord(role, content, time.0)) else None
  }

  lemma TimeCellParses(role: string, content: string, stamp: string)
    requires '"' !in stamp
    ensures ParseTimeCell(role, content, ",\"" + stamp + "\"") == Some(CsvRecord(role, content, stamp))
  {
    var rest := ",\"" + stamp + "\"";
    assert rest[2..] == stamp + "\"" + [];
    ParsePlain(stamp, []);
  }

  lemma CellsParse(m: Message, stamp: string)
    requires '"' !in stamp
    ensures ParseCells(m.role, "\"" + EscapeContent(m.content) + "\",\"" + stamp + "\"")
            == Some(CsvRecord(m.role, Flatten(m.content), stamp))
  {
    var e := EscapeContent(m.content);
    var after := ",\"" + stamp + "\"";
    var rest := "\"" + e + "\",\"" + stamp + "\"";
    assert rest[1..] == e + "\"" + after;
    EscapeContentIsOnePass(m.content);
    ParseEscaped(m.content, after);
    TimeCellParses(m.role, Flatten(m.content), stamp);
  }

  /** A data line reads back as the message's role, its content with
      newlines flattened, and its timestamp, as long as the role has no comma
      and the timestamp no quote. */
  lemma RowLineParses(m: Message, stamp: string)
    requires ',' !in m.role && '"' !in stamp
    ensures ParseRow(RowLine(m, stamp)) == Some(CsvRecord(m.role, Flatten(m.content), stamp))
  {
    var rest := "\"" + EscapeContent(m.content) + "\",\"" + stamp + "\"";
    var line := RowLine(m, stamp);
    assert line == m.role + [','] + rest;
    IndexOfPrefix(m.role, rest, ',');
    assert line[..|m.role|] == m.role;
    assert line[|m.role| + 1..] == rest;
    CellsParse(m, stamp);
  }

  /** A CSV reader recovers every message from the export: the header, then
      for message `k` its role, its content with newlines flattened and its
      timestamp. */
  lemma CsvReadsBack(msgs: seq<Message>, createdAt: string, stamp: (string, nat) -> string)
    requires OneLineEach(msgs, createdAt, stamp)
    requires forall k :: 0 <= k < |msgs| ==> ',' !in msgs[k].role && '"' !in stamp(createdAt, k)
    ensures var ls := Lines(CsvDocument(msgs, createdAt, stamp));
            |ls| == |msgs| + 1 && ls[0] == HeaderLine
            && forall k :: 0 <= k < |msgs| ==>
                 ParseRow(ls[k + 1]) == Some(CsvRecord(msgs[k].role, Flatten(msgs[k].content), stamp(createdAt, k)))
  {
    CsvLines(msgs, createdAt, stamp);
    forall k | 0 <= k < |msgs|
      ensures ParseRow(RowLine(msgs[k], stamp(createdAt, k)))
              == Some(CsvRecord(msgs[k].role, Flatten(msgs[k].content), stamp(createdAt, k)))
    {
      RowLineParses(msgs[k], stamp(createdAt, k));
    }
  }
}
