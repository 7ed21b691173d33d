/** The reports page (src/components/Reports/Reports.tsx): the export takes
    the first ten tickets of the store and writes them as CSV, one line per
    ticket under a fixed header; the table on the page shows the same ten
    tickets with their time as hours and minutes. The locale date text is a
    parameter. */
module Reports {
  import opened Common
  import opened Domain

  /** The column names, and the header line every export starts with:
      "ID,Título,Estado,Prioridad,Categoría,Creado,Tiempo Gastado" and a
      line break. */
  const Columns := ["ID", "Título", "Estado", "Prioridad", "Categoría", "Creado", "Tiempo Gastado"]
  const Header := Join(Columns, ",") + "\n"

  lemma ColumnsArePlain()
    ensures forall k :: 0 <= k < |Columns| ==> ',' !in Columns[k] && '\n' !in Columns[k]
  {
  }

  /** The header is one line, and it splits into as many columns as a
      ticket's line has fields. */
  lemma HeaderIsOneLine()
    ensures Count(Header, '\n') == 1
    ensures Split(Header[..|Header| - 1], ',') == Columns
  {
    ColumnsArePlain();
    JoinAbsent(Columns, ",", '\n');
    CountAbsent(Join(Columns, ","), '\n');
    CountAppend(Join(Columns, ","), "\n", '\n');
    SplitJoin(Columns, ',');
    assert Header[..|Header| - 1] == Join(Columns, [',']);
  }

  /** `tickets.slice(0, 10)`: the tickets the export and the table show. */
  function ExportData(tickets: seq<Ticket>): (r: seq<Ticket>)
    ensures |tickets| <= 10 ==> r == tickets
    ensures |tickets| > 10 ==> r == tickets[..10]
  {
    Take(tickets, 10)
  }

  /** The seven fields of a ticket's line: id, the title in quotes (not
      escaped), status, priority, category, creation date and minutes
      spent. */
  function Fields(t: Ticket, dateText: Timestamp -> string): (r: seq<string>)
    ensures |r| == 7
  {
    [t.id, "\"" + t.title + "\"", t.status.Name(), t.priority.Name(), t.category,
     dateText(t.createdAt), Dec(t.timeSpent)]
  }

  /** One line of the export: the fields separated by commas, then a line
      break. */
  function Row(t: Ticket, dateText: Timestamp -> string): string
  {
    Join(Fields(t, dateText), ",") + "\n"
  }

  function RowOf(dateText: Timestamp -> string): Ticket -> string
  {
    (t: Ticket) => Row(t, dateText)
  }

  /** The lines of `data`, in order. */
  function Rows(data: seq<Ticket>, dateText: Timestamp -> string): string
  {
    Lines(data, RowOf(dateText))
  }

  /** The texts `line` gives the items of `data`, one after the other. */
  function Lines<T>(data: seq<T>, line: T -> string): string
  {
    if data == [] then "" else Lines(data[..|data| - 1], line) + line(data[|data| - 1])
  }

  /** What `generateCSVContent` returns: the header, followed by the lines of
      the tickets when the report type is "tickets". */
  function CSVContent(kind: string, data: seq<Ticket>, dateText: Timestamp -> string): (r: string)
    ensures Header <= r
    ensures kind != "tickets" ==> r == Header
  {
    Header + (if kind == "tickets" then Rows(data, dateText) else "")
  }

  /** `generateCSVContent`: the header, then one `+=` per ticket. */
  method GenerateCSVContent(kind: string, data: seq<Ticket>, dateText: Timestamp -> string) returns (csv: string)
    ensures csv == CSVContent(kind, data, dateText)
  {
    csv := Header;
    if kind == "tickets" {
      var i := 0;
      while i < |data|
        invariant 0 <= i <= |data|
        invariant csv == Header + Rows(data[..i], dateText)
      {
        ghost var before := Rows(data[..i], dateText);
        var row := Row(data[i], dateText);
        assert Rows(data[..i + 1], dateText) == before + row by {
          assert data[..i + 1][..i] == data[..i];
        }
        SeqAssoc3(Header, before, row);
        csv := csv + row;
        i := i + 1;
      }
      assert data[..i] == data;
    }
  }

  /** The lines of two runs of tickets, one after the other. */
  lemma RowsAppend(a: seq<Ticket>, b: seq<Ticket>, dateText: Timestamp -> string)
    ensures Rows(a + b, dateText) == Rows(a, dateText) + Rows(b, dateText)
  {
    LinesAppend(a, b, RowOf(dateText));
  }

  lemma {:induction false} LinesAppend<T>(a: seq<T>, b: seq<T>, line: T -> string)
    ensures Lines(a + b, line) == Lines(a, line) + Lines(b, line)
  {
    if b != [] {
      var b' := b[..|b| - 1];
      assert (a + b)[..|a + b| - 1] == a + b';
      LinesAppend(a, b', line);
    } else {
      assert a + b == a;
    }
  }

  /** The number of times `c` occurs in `s`. */
  function Count(s: string, c: char): (n: nat)
    ensures n <= |s|
  {
    if s == [] then 0 else (if s[0] == c then 1 else 0) + Count(s[1..], c)
  }

  lemma {:induction false} CountAppend(a: string, b: string, c: char)
    ensures Count(a + b, c) == Count(a, c) + Count(b, c)
  {
    if a != [] {
      assert (a + b)[1..] == a[1..] + b;
      CountAppend(a[1..], b, c);
    } else {
      assert a + b == b;
    }
  }

  lemma {:induction false} CountAbsent(s: string, c: char)
    requires c !in s
    ensures Count(s, c) == 0
  {
    if s != [] {
      assert c !in s[1..];
      CountAbsent(s[1..], c);
    }
  }

  /** The text fields of a ticket hold no line break. */
  predicate SingleLine(t: Ticket, dateText: Timestamp -> string)
  {
    '\n' !in t.id && '\n' !in t.title && '\n' !in t.category && '\n' !in dateText(t.createdAt)
  }

  /** Neither the status nor the priority names, nor a number, hold a
      comma or a line break. */
  lemma PlainFields(t: Ticket, dateText: Timestamp -> string)
    ensures forall k :: 2 <= k < 7 && k != 4 && k != 5 ==> ',' !in Fields(t, dateText)[k] && '\n' !in Fields(t, dateText)[k]
  {
    var d := Dec(t.timeSpent);
    assert ',' !in d && '\n' !in d by {
      assert forall k :: 0 <= k < |d| ==> '0' <= d[k] <= '9';
    }
    assert ',' !in t.status.Name() && '\n' !in t.status.Name();
    assert ',' !in t.priority.Name() && '\n' !in t.priority.Name();
  }

  /** A character in none of the pieces nor in the separator is not in their
      join. */
  lemma {:induction false} JoinAbsent(ps: seq<string>, sep: string, c: char)
    requires c !in sep
    requires forall k :: 0 <= k < |ps| ==> c !in ps[k]
    ensures c !in Join(ps, sep)
  {
    if |ps| > 1 {
      JoinAbsent(ps[1..], sep, c);
    }
  }

  /** A ticket whose text fields hold no line break gives exactly one line. */
  lemma RowIsOneLine(t: Ticket, dateText: Timestamp -> string)
    requires SingleLine(t, dateText)
    ensures Count(Row(t, dateText), '\n') == 1
  {
    var fs := Fields(t, dateText);
    PlainFields(t, dateText);
    assert '\n' !in fs[1];
    JoinAbsent(fs, ",", '\n');
    CountAbsent(Join(fs, ","), '\n');
    CountAppend(Join(fs, ","), "\n", '\n');
  }

  /** Reading a line back: when no text field holds a comma, cutting the line
      at its commas gives back its seven fields. */
  lemma RowSplitsIntoFields(t: Ticket, dateText: Timestamp -> string)
    requires ',' !in t.id && ',' !in t.title && ',' !in t.category && ',' !in dateText(t.createdAt)
    ensures Split(Row(t, dateText)[..|Row(t, dateText)| - 1], ',') == Fields(t, dateText)
  {
    var fs := Fields(t, dateText);
    PlainFields(t, dateText);
    assert ',' !in fs[1];
    SplitJoin(fs, ',');
    assert Row(t, dateText)[..|Row(t, dateText)| - 1] == Join(fs, [',']);
  }

  /** The lines of tickets without line breaks in their text fields are one
      per ticket. */
  lemma {:induction false} RowsLineCount(data: seq<Ticket>, dateText: Timestamp -> string)
    requires forall k :: 0 <= k < |data| ==> SingleLine(data[k], dateText)
    ensures Count(Rows(data, dateText), '\n') == |data|
  {
    if data != [] {
      var init := data[..|data| - 1];
      RowsLineCount(init, dateText);
      RowIsOneLine(data[|data| - 1], dateText);
      assert Rows(data, dateText) == Rows(init, dateText) + Row(data[|data| - 1], dateText);
      CountAppend(Rows(init, dateText), Row(data[|data| - 1], dateText), '\n');
    }
  }

  /** The export of the store: the header line and then one line for each of
      the first ten tickets, when their text fields hold no line break; only
      the header line for any other report type. */
  lemma ExportLineCount(kind: string, tickets: seq<Ticket>, dateText: Timestamp -> string)
    requires forall k :: 0 <= k < |tickets| ==> SingleLine(tickets[k], dateText)
    ensures var n := Count(CSVContent(kind, ExportData(tickets), dateText), '\n');
      && (kind == "tickets" ==> n == 1 + (if |tickets| <= 10 then |tickets| else 10))
      && (kind != "tickets" ==> n == 1)
  {
    var data := ExportData(tickets);
    assert forall k :: 0 <= k < |data| ==> data[k] == tickets[k];
    HeaderIsOneLine();
    if kind == "tickets" {
      RowsLineCount(data, dateText);
      CountAppend(Header, Rows(data, dateText), '\n');
    }
  }
}
