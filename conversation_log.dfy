/** The conversation log: a delimited file of three-field rows whose first row
    is a fixed header. The file is either absent or present with its rows; it
    is created with the header when missing, appended to once per turn, and
    read back without its first row for the history view. */
module ConversationLog {
  import opened Corpus

  /** One row of the file: user input, bot response, timestamp. */
  datatype Row = Row(userInput: string, botResponse: string, timestamp: string)

  /** The header row written when the file is created. */
  const Header := Row("User Input", "Chatbot Response", "Timestamp")

  /** The file on disk: `None` when it does not exist. */
  type Store = Option<seq<Row>>

  /** Rows of the file; an absent file has none. */
  function RowsOf(s: Store): seq<Row>
  {
    match s case None => [] case Some(rows) => rows
  }

  /** Creating the file with the header row when it does not exist. */
  function WithHeader(s: Store): (r: Store)
    ensures r.Some?
  {
    if s.None? then Some([Header]) else s
  }

  /** Opening the file for appending and writing one row; opening for
      appending creates a missing file. */
  function Appended(s: Store, row: Row): (r: Store)
    ensures r.Some?
  {
    Some(RowsOf(s) + [row])
  }

  /** Appending rows one after the other, in order. */
  function AppendedAll(s: Store, rows: seq<Row>): Store
  {
    if rows == [] then s else Appended(AppendedAll(s, rows[..|rows| - 1]), rows[|rows| - 1])
  }

  /** What the history view finds: no file, a file with no rows at all
      (skipping the header then fails), or the rows after the first. */
  datatype History = NoLogFile | EmptyFile | Entries(rows: seq<Row>)

  function ReadHistory(s: Store): (h: History)
    ensures h.NoLogFile? <==> s.None?
    ensures h.EmptyFile? <==> s == Some([])
    ensures h.Entries? ==> |RowsOf(s)| == |h.rows| + 1 && RowsOf(s)[1..] == h.rows
  {
    match s
    case None => NoLogFile
    case Some(rows) => if rows == [] then EmptyFile else Entries(rows[1..])
  }

  /** Creating the header is idempotent, never touches an existing file, and
      on a missing file leaves exactly one header row and no history. */
  lemma WithHeaderProperties(s: Store)
    ensures WithHeader(WithHeader(s)) == WithHeader(s)
    ensures s.Some? ==> WithHeader(s) == s
    ensures s.None? ==> RowsOf(WithHeader(WithHeader(s))) == [Header]
    ensures s.None? ==> ReadHistory(WithHeader(WithHeader(s))) == Entries([])
  {
  }

  /** Appending several rows adds exactly those rows, in order, after the
      rows already present. */
  lemma {:induction false} AppendedAllRows(s: Store, rows: seq<Row>)
    ensures AppendedAll(s, rows) == if rows == [] then s else Some(RowsOf(s) + rows)
  {
    if rows != [] {
      var n := |rows| - 1;
      AppendedAllRows(s, rows[..n]);
      assert RowsOf(AppendedAll(s, rows[..n])) == RowsOf(s) + rows[..n];
      calc {
        AppendedAll(s, rows);
        Appended(AppendedAll(s, rows[..n]), rows[n]);
        Some(RowsOf(s) + rows[..n] + [rows[n]]);
        { assert rows[..n] + [rows[n]] == rows;
          assert RowsOf(s) + rows[..n] + [rows[n]] == RowsOf(s) + (rows[..n] + [rows[n]]); }
        Some(RowsOf(s) + rows);
      }
    }
  }

  /** After any number of turns on a fresh log (header created, then one row
      per turn) the history holds exactly those rows in turn order. */
  lemma HistoryOfFreshLog(rows: seq<Row>)
    ensures ReadHistory(AppendedAll(WithHeader(None), rows)) == Entries(rows)
  {
    AppendedAllRows(WithHeader(None), rows);
    assert ([Header] + rows)[1..] == rows;
  }

  /** On a file that already has its header, one append adds exactly one
      history entry at the end and keeps the earlier entries. */
  lemma HistoryAfterAppend(s: Store, row: Row)
    requires RowsOf(s) != []
    ensures ReadHistory(Appended(s, row)) == Entries(ReadHistory(s).rows + [row])
  {
    assert (RowsOf(s) + [row])[1..] == RowsOf(s)[1..] + [row];
  }

  /** The log file as mutable external state. */
  class LogFile {
    var store: Store

    constructor (initial: Store)
      ensures store == initial
    {
      store := initial;
    }

    /** Write the header row only when the file does not exist yet. */
    method EnsureHeader()
      modifies this
      ensures store == WithHeader(old(store))
      ensures old(store).Some? ==> unchanged(this)
    {
      if store.None? {
        store := Some([Header]);
      }
    }

    /** Open the file for appending and write one row at the end; earlier rows
        are kept. */
    method Append(row: Row)
      modifies this
      ensures store == Appended(old(store), row)
      ensures |RowsOf(store)| == |RowsOf(old(store))| + 1
      ensures RowsOf(store)[..|RowsOf(old(store))|] == RowsOf(old(store))
    {
      store := Some(RowsOf(store) + [row]);
    }
  }
}
