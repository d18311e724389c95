/**
 * The log viewer (`Logs.tsx`): it splits the log text into lines, drops the
 * empty ones, orders them newest first by the timestamp before the first
 * " - ", and shows each as a numbered row of four fields. Read together with
 * the webhook receiver, which writes those lines, it completes a
 * serialiser/parser pair.
 *
 * Timestamps are compared as text. The receiver writes them with
 * `toISOString`, whose fixed-width form (ISO 8601 extended format, as in
 * section 5.6 of RFC 3339) orders as text exactly as it orders in time.
 */
module LogsView {
  import opened Common
  import opened Text
  import opened StripeWebhook

  const NEWLINE: string := "\n"
  const FIELD_SEPARATOR: string := " - "

  /** `filter(Boolean)` on strings: keeps the non-empty ones, in order. */
  function NonEmpty(lines: seq<string>): (r: seq<string>)
    ensures forall k | 0 <= k < |r| :: r[k] != ""
    ensures multiset(r) == multiset(lines)["" := 0]
  {
    if lines == [] then []
    else
      assert lines == [lines[0]] + lines[1..];
      (if lines[0] == "" then [] else [lines[0]]) + NonEmpty(lines[1..])
  }

  /** Filtering distributes over concatenation. */
  lemma {:induction false} NonEmptyConcat(a: seq<string>, b: seq<string>)
    ensures NonEmpty(a + b) == NonEmpty(a) + NonEmpty(b)
    decreases |a|
  {
    if a != [] {
      assert (a + b)[1..] == a[1..] + b;
      NonEmptyConcat(a[1..], b);
    } else {
      assert a + b == b;
    }
  }

  /**
   * The entries `fetchLogs` keeps before sorting: the non-empty lines of the
   * text. None is empty and none contains a newline.
   */
  function Entries(text: string): (r: seq<string>)
    ensures forall k | 0 <= k < |r| :: r[k] != "" && '\n' !in r[k]
  {
    var lines := Split(text, NEWLINE);
    SplitPieces(text, NEWLINE);
    forall k | 0 <= k < |lines|
      ensures '\n' !in lines[k]
    {
      FreeOfChar(lines[k], '\n');
    }
    NonEmptyWithout(lines, '\n');
    NonEmpty(lines)
  }

  /** The filter keeps no line that has `c` when none of its input lines has. */
  lemma {:induction false} NonEmptyWithout(lines: seq<string>, c: char)
    requires forall k | 0 <= k < |lines| :: c !in lines[k]
    ensures forall k | 0 <= k < |NonEmpty(lines)| :: c !in NonEmpty(lines)[k]
    decreases |lines|
  {
    if lines != [] {
      NonEmptyWithout(lines[1..], c);
    }
  }

  /** A string without the separator splits into itself alone. */
  lemma SplitFree(s: string, sep: string)
    requires sep != []
    ensures Free(s, sep) ==> Split(s, sep) == [s]
  {
    if Free(s, sep) {
      SplitJoin([s], sep);
    }
  }

  /** The empty text splits into one empty line, which the filter drops. */
  lemma EmptyTextReadBack()
    ensures Split([], NEWLINE) == [[]]
    ensures NonEmpty([[]]) == []
    ensures Entries([]) == []
  {
    SplitFree([], NEWLINE);
    var empty: seq<string> := [[]];
    assert empty[1..] == [];
  }

  /** A line followed by a newline splits into the line and an empty rest. */
  lemma LineSplit(line: string)
    requires '\n' !in line
    ensures Split(line + NEWLINE, NEWLINE) == [line, []]
  {
    CharFree(line, '\n');
    SplitFree(line, NEWLINE);
    SplitAtSeparator(line, '\n', []);
    assert line + NEWLINE == line + ['\n'] + [];
    EmptyTextReadBack();
  }

  /** The filter keeps a non-empty line and drops the empty rest after it. */
  lemma LineFilter(line: string)
    requires line != []
    ensures NonEmpty([line, []]) == [line]
  {
    var empty: seq<string> := [[]];
    assert [line, []][1..] == empty && empty[1..] == [];
  }

  /** The entries of a text that ends with a newline are those of the text before it. */
  lemma TrailingNewline(t: string)
    ensures Entries(t + NEWLINE) == NonEmpty(Split(t, NEWLINE))
  {
    var before := Split(t, NEWLINE);
    assert t + NEWLINE == t + ['\n'] + [];
    SplitAtSeparator(t, '\n', []);
    EmptyTextReadBack();
    assert Split(t + NEWLINE, NEWLINE) == before + [[]];
    NonEmptyConcat(before, [[]]);
  }

  /** A line appended after a newline adds itself to the entries of what comes before. */
  lemma LineAfterNewline(t: string, line: string)
    requires line != [] && '\n' !in line
    ensures Entries(t + NEWLINE + line + NEWLINE) == NonEmpty(Split(t, NEWLINE)) + [line]
  {
    var before := Split(t, NEWLINE);
    assert t + NEWLINE + line + NEWLINE == t + ['\n'] + (line + NEWLINE);
    SplitAtSeparator(t, '\n', line + NEWLINE);
    LineSplit(line);
    assert Split(t + NEWLINE + line + NEWLINE, NEWLINE) == before + [line, []];
    NonEmptyConcat(before, [line, []]);
    LineFilter(line);
  }

  /**
   * Appending one line and its newline to a log that is empty or ends with a
   * newline adds exactly that line to the entries read back.
   */
  lemma AppendReadBack(text: string, line: string)
    requires text == [] || text[|text| - 1] == '\n'
    requires line != [] && '\n' !in line
    ensures Entries(text + line + NEWLINE) == Entries(text) + [line]
  {
    if text == [] {
      assert text + line + NEWLINE == line + NEWLINE;
      LineSplit(line);
      LineFilter(line);
      EmptyTextReadBack();
    } else {
      var t := text[..|text| - 1];
      assert text == t + NEWLINE;
      TrailingNewline(t);
      LineAfterNewline(t, line);
    }
  }

  /** The file's text after appending `chunks` to an empty file, in order. */
  function Concat(chunks: seq<string>): string
  {
    if chunks == [] then "" else Concat(chunks[..|chunks| - 1]) + chunks[|chunks| - 1]
  }

  /** One complete log line: a non-empty text without newline, then a newline. */
  predicate IsLine(chunk: string)
  {
    |chunk| > 1 && chunk[|chunk| - 1] == '\n' && '\n' !in chunk[..|chunk| - 1]
  }

  /** The lines of `chunks`, each without its newline. */
  function Chomped(chunks: seq<string>): (r: seq<string>)
    requires forall k | 0 <= k < |chunks| :: IsLine(chunks[k])
    ensures |r| == |chunks|
    ensures forall k | 0 <= k < |r| :: r[k] + NEWLINE == chunks[k]
  {
    if chunks == [] then []
    else
      var n := |chunks| - 1;
      var last := chunks[n];
      assert IsLine(last);
      assert last[..|last| - 1] + NEWLINE == last;
      Chomped(chunks[..n]) + [last[..|last| - 1]]
  }

  /** A log written one complete line at a time reads back as exactly those lines, in file order. */
  lemma {:induction false} LogFileReadBack(chunks: seq<string>)
    requires forall k | 0 <= k < |chunks| :: IsLine(chunks[k])
    ensures Entries(Concat(chunks)) == Chomped(chunks)
    ensures Concat(chunks) == [] || Concat(chunks)[|Concat(chunks)| - 1] == '\n'
    decreases |chunks|
  {
    if chunks == [] {
      EmptyTextReadBack();
    } else {
      var n := |chunks| - 1;
      var front, last := chunks[..n], chunks[n];
      assert forall k | 0 <= k < n :: front[k] == chunks[k];
      var text := Concat(front);
      LogFileReadBack(front);
      AppendChunk(text, last);
      ChompedLast(chunks);
    }
  }

  /** The last chunk of a log contributes the last line, without its newline. */
  lemma ChompedLast(chunks: seq<string>)
    requires chunks != []
    requires forall k | 0 <= k < |chunks| :: IsLine(chunks[k])
    ensures Concat(chunks) == Concat(chunks[..|chunks| - 1]) + chunks[|chunks| - 1]
    ensures Chomped(chunks) == Chomped(chunks[..|chunks| - 1]) + [chunks[|chunks| - 1][..|chunks[|chunks| - 1]| - 1]]
  {
  }

  /** One step of `LogFileReadBack`: appending one complete line. */
  lemma AppendChunk(text: string, chunk: string)
    requires text == [] || text[|text| - 1] == '\n'
    requires IsLine(chunk)
    ensures Entries(text + chunk) == Entries(text) + [chunk[..|chunk| - 1]]
    ensures (text + chunk)[|text + chunk| - 1] == '\n'
  {
    var line := chunk[..|chunk| - 1];
    assert chunk == line + NEWLINE;
    assert text + chunk == text + line + NEWLINE;
    AppendReadBack(text, line);
  }

  /** `a` comes at or before `b` in the lexicographic order of their characters. */
  predicate LexLeq(a: string, b: string)
  {
    a == [] || (b != [] && (a[0] < b[0] || (a[0] == b[0] && LexLeq(a[1..], b[1..]))))
  }

  lemma {:induction false} LexLeqTotal(a: string, b: string)
    ensures LexLeq(a, b) || LexLeq(b, a)
    decreases |a|
  {
    if a != [] && b != [] && a[0] == b[0] {
      LexLeqTotal(a[1..], b[1..]);
    }
  }

  lemma {:induction false} LexLeqTransitive(a: string, b: string, c: string)
    requires LexLeq(a, b) && LexLeq(b, c)
    ensures LexLeq(a, c)
    decreases |a|
  {
    if a != [] && a[0] == b[0] && b[0] == c[0] {
      LexLeqTransitive(a[1..], b[1..], c[1..]);
    }
  }

  /** The text before the first " - " of a line: what the viewer hands to `new Date`. */
  function TimestampOf(line: string): (t: string)
    ensures |t| <= |line| && t == line[..|t|] && Free(t, FIELD_SEPARATOR)
    ensures |t| < |line| ==> OccursAt(line, FIELD_SEPARATOR, |t|)
    ensures forall j: nat | j < |t| :: !OccursAt(line, FIELD_SEPARATOR, j)
  {
    SplitHead(line, FIELD_SEPARATOR);
    SplitPieces(line, FIELD_SEPARATOR);
    FindFromFirst(line, FIELD_SEPARATOR, 0);
    var first := FindFrom(line, FIELD_SEPARATOR, 0);
    assert first.Some? ==> Split(line, FIELD_SEPARATOR)[0] == line[..first.value];
    Split(line, FIELD_SEPARATOR)[0]
  }

  /**
   * `s` is ordered by non-increasing `key`: every entry's key is at or after
   * the keys of all entries behind it.
   */
  predicate Descending(s: seq<string>, key: string -> string)
  {
    forall i, j | 0 <= i < j < |s| :: LexLeq(key(s[j]), key(s[i]))
  }

  /**
   * Inserts `x` into a sequence ordered by descending key, before the first
   * entry whose key is not after its own (so before entries with an equal key).
   */
  function Insert(x: string, sorted: seq<string>, key: string -> string): (r: seq<string>)
    requires Descending(sorted, key)
    ensures Descending(r, key)
    ensures multiset(r) == multiset(sorted) + multiset{x}
    decreases |sorted|
  {
    if sorted == [] || LexLeq(key(sorted[0]), key(x)) then
      InsertFront(x, sorted, key);
      [x] + sorted
    else
      var rest := Insert(x, sorted[1..], key);
      assert sorted == [sorted[0]] + sorted[1..];
      InsertBehind(sorted[0], sorted[1..], x, rest, key);
      [sorted[0]] + rest
  }

  /** `x` may go first when its key is at or after the key of the first entry. */
  lemma InsertFront(x: string, sorted: seq<string>, key: string -> string)
    requires Descending(sorted, key)
    requires sorted == [] || LexLeq(key(sorted[0]), key(x))
    ensures Descending([x] + sorted, key)
  {
    var r := [x] + sorted;
    forall i, j | 0 <= i < j < |r|
      ensures LexLeq(key(r[j]), key(r[i]))
    {
      assert r[j] == sorted[j - 1];
      if i > 0 {
        assert r[i] == sorted[i - 1];
      } else if j > 1 {
        LexLeqTransitive(key(sorted[j - 1]), key(sorted[0]), key(x));
      }
    }
  }

  /**
   * An entry whose key is after `x`'s stays in front of the rest once `x` has
   * been inserted behind it.
   */
  lemma InsertBehind(head: string, tail: seq<string>, x: string, rest: seq<string>, key: string -> string)
    requires Descending([head] + tail, key) && Descending(rest, key)
    requires !LexLeq(key(head), key(x))
    requires multiset(rest) == multiset(tail) + multiset{x}
    ensures Descending([head] + rest, key)
  {
    LexLeqTotal(key(x), key(head));
    var r := [head] + rest;
    forall i, j | 0 <= i < j < |r|
      ensures LexLeq(key(r[j]), key(r[i]))
    {
      assert r[j] == rest[j - 1];
      if i > 0 {
        assert r[i] == rest[i - 1];
      } else if rest[j - 1] == x {
        assert r[i] == head;
        assert LexLeq(key(x), key(head));
      } else {
        assert rest[j - 1] in multiset(rest);
        assert rest[j - 1] in multiset(tail);
        var k :| 0 <= k < |tail| && tail[k] == rest[j - 1];
        var sorted := [head] + tail;
        assert sorted[0] == head && sorted[k + 1] == tail[k];
        assert LexLeq(key(sorted[k + 1]), key(sorted[0]));
        assert r[i] == head;
      }
    }
  }

  /** Insertion sort by descending key: a permutation of `entries`, ordered by descending key. */
  function SortDescending(entries: seq<string>, key: string -> string): (r: seq<string>)
    ensures Descending(r, key)
    ensures multiset(r) == multiset(entries)
  {
    if entries == [] then []
    else
      assert entries == [entries[0]] + entries[1..];
      Insert(entries[0], SortDescending(entries[1..], key), key)
  }

  /**
   * `logEntries.sort(...)` with the comparator `dateB - dateA`: a permutation
   * of the entries, newest first.
   */
  function SortNewestFirst(entries: seq<string>): (r: seq<string>)
    ensures Descending(r, TimestampOf)
    ensures multiset(r) == multiset(entries)
  {
    SortDescending(entries, TimestampOf)
  }

  /** `fetchLogs`: what the viewer holds after reading the log text. */
  function FetchLogs(text: string): (logs: seq<string>)
    ensures Descending(logs, TimestampOf)
    ensures forall k | 0 <= k < |logs| :: logs[k] != "" && '\n' !in logs[k]
    ensures multiset(logs) == multiset(Split(text, NEWLINE))["" := 0]
  {
    var entries := Entries(text);
    var logs := SortNewestFirst(entries);
    assert forall k | 0 <= k < |logs| :: logs[k] in multiset(entries);
    logs
  }

  /**
   * The entries the viewer holds once `fetchLogs` has run. `received` is the
   * outcome of fetching `/api/logs` and reading `data.logs` from its JSON
   * body; when either step throws, nothing catches it, `setLogs` never runs
   * and the list keeps its initial value, which is empty.
   */
  function LoadedLogs(received: Call<string>): (logs: seq<string>)
    ensures received.Threw? ==> logs == [] && Render(logs) == View(0, NoLogsAvailable)
    ensures received.Returned? ==>
      Descending(logs, TimestampOf)
      && multiset(logs) == multiset(Split(received.value, NEWLINE))["" := 0]
  {
    match received
    case Threw(_) => []
    case Returned(text) => FetchLogs(text)
  }

  /** One row of the table: its number and the four fields of the line. */
  datatype Row = Row(
    number: nat,
    timestamp: Option<string>,
    event: Option<string>,
    id: Option<string>,
    customerId: Option<string>)

  /** Array destructuring: a missing element is `undefined`. */
  function Nth(parts: seq<string>, k: nat): (r: Option<string>)
    ensures r.Some? <==> k < |parts|
    ensures r.Some? ==> r.value == parts[k]
  {
    if k < |parts| then Some(parts[k]) else None
  }

  /**
   * The row of the line at position `index`: `[timestamp, event, id, customerId] = log.split(" - ")`.
   * For a general line the contract fixes the number and the timestamp and
   * says the later cells are separator-free and present only in order; which
   * pieces they hold is stated for the receiver's lines by `LogLineFields`
   * and `RenderedWebhookRow`.
   */
  function RowOf(index: nat, line: string): (r: Row)
    ensures r.number == index + 1 && r.timestamp == Some(TimestampOf(line))
    ensures r.event.Some? ==> Free(r.event.value, FIELD_SEPARATOR)
    ensures r.id.Some? ==> Free(r.id.value, FIELD_SEPARATOR)
    ensures r.customerId.Some? ==> Free(r.customerId.value, FIELD_SEPARATOR)
    ensures r.customerId.Some? ==> r.id.Some? && r.event.Some?
    ensures Free(line, FIELD_SEPARATOR) ==> r == Row(index + 1, Some(line), None, None, None)
  {
    SplitPieces(line, FIELD_SEPARATOR);
    SplitFree(line, FIELD_SEPARATOR);
    var parts := Split(line, FIELD_SEPARATOR);
    Row(index + 1, Nth(parts, 0), Nth(parts, 1), Nth(parts, 2), Nth(parts, 3))
  }

  /** What is under the header: the table, or the text "No logs available". */
  datatype Body = Table(rows: seq<Row>) | NoLogsAvailable

  /** The rendered component: the count in the header "Webhook Logs (n)", and the body. */
  datatype View = View(count: nat, body: Body)

  /**
   * The header counts the entries; an empty list shows "No logs available";
   * otherwise the rows are numbered 1 to n in order and each shows its own
   * line's timestamp.
   */
  function Render(logs: seq<string>): (v: View)
    ensures v.count == |logs|
    ensures v.body.NoLogsAvailable? <==> logs == []
    ensures v.body.Table? ==> |v.body.rows| == |logs|
    ensures v.body.Table? ==> forall i | 0 <= i < |logs| ::
      v.body.rows[i].number == i + 1 && v.body.rows[i].timestamp == Some(TimestampOf(logs[i]))
    ensures v.body.Table? ==> forall i | 0 <= i < |logs| :: v.body.rows[i] == RowOf(i, logs[i])
  {
    if |logs| > 0 then
      View(|logs|, Table(seq(|logs|, i requires 0 <= i < |logs| => RowOf(i, logs[i]))))
    else
      View(0, NoLogsAvailable)
  }

  /** The log line of the receiver is its four labelled fields joined by " - ". */
  lemma LogBodyIsJoin(timestamp: string, event: Event)
    ensures LogBody(timestamp, event) == Join(LogFields(timestamp, event), FIELD_SEPARATOR)
  {
    var f := LogFields(timestamp, event);
    Join4(f[0], f[1], f[2], f[3], FIELD_SEPARATOR);
    var withType := timestamp + " - Event: " + event.eventType;
    var withId := withType + " - ID: " + event.id;
    Labelled(timestamp, " - Event: ", "Event: ", event.eventType);
    Labelled(withType, " - ID: ", "ID: ", event.id);
    Labelled(withId, " - Customer ID: ", "Customer ID: ", CustomerIdText(event.payload));
  }

  /** A literal that starts with the separator: `x`, that literal and `y` is `x`, the separator, the name and `y`. */
  lemma Labelled(x: string, literal: string, name: string, y: string)
    requires literal == FIELD_SEPARATOR + name
    ensures x + literal + y == x + FIELD_SEPARATOR + (name + y)
  {
    Associative(x, FIELD_SEPARATOR, name);
    Associative(x + FIELD_SEPARATOR, name, y);
  }

  /** The four fields the receiver writes, in order. */
  function LogFields(timestamp: string, event: Event): (f: seq<string>)
    ensures |f| == 4
  {
    [timestamp, "Event: " + event.eventType, "ID: " + event.id,
     "Customer ID: " + CustomerIdText(event.payload)]
  }

  /**
   * A string without '-' neither contains " - " nor ends with " -", so it can
   * stand before " - " and contains none.
   */
  lemma NoDashDelimits(f: string)
    requires '-' !in f
    ensures Delimits(f, FIELD_SEPARATOR) && Free(f, FIELD_SEPARATOR)
  {
    forall i: nat | i < |f|
      ensures !OccursAt(f + FIELD_SEPARATOR, FIELD_SEPARATOR, i)
    {
      if i + 1 < |f| {
        assert (f + FIELD_SEPARATOR)[i + 1] == f[i + 1];
      } else {
        assert (f + FIELD_SEPARATOR)[i + 1] == ' ';
      }
      if i + 3 <= |f + FIELD_SEPARATOR| {
        assert (f + FIELD_SEPARATOR)[i..i + 3][1] == (f + FIELD_SEPARATOR)[i + 1];
      }
    }
    forall i: nat | i <= |f|
      ensures !OccursAt(f, FIELD_SEPARATOR, i)
    {
      if i + 3 <= |f| {
        assert f[i..i + 3][1] == f[i + 1];
      }
    }
  }

  /** A string without spaces can stand before " - ". */
  lemma NoSpaceDelimits(f: string)
    requires ' ' !in f
    ensures Delimits(f, FIELD_SEPARATOR)
  {
    forall i: nat | i < |f|
      ensures !OccursAt(f + FIELD_SEPARATOR, FIELD_SEPARATOR, i)
    {
      assert (f + FIELD_SEPARATOR)[i] == f[i];
      if i + 3 <= |f + FIELD_SEPARATOR| {
        assert (f + FIELD_SEPARATOR)[i..i + 3][0] == f[i];
      }
    }
  }

  /**
   * A line the receiver wrote splits back into its four fields when the
   * first three can stand before " - " (no " - " inside and no trailing " -")
   * and the last holds no " - ": the row shows the timestamp unchanged, then
   * "Event: <type>", "ID: <id>" and "Customer ID: <cid>".
   */
  lemma LogLineFields(timestamp: string, event: Event, index: nat)
    requires var f := LogFields(timestamp, event);
             Delimits(f[0], FIELD_SEPARATOR) && Delimits(f[1], FIELD_SEPARATOR)
             && Delimits(f[2], FIELD_SEPARATOR) && Free(f[3], FIELD_SEPARATOR)
    ensures Split(LogBody(timestamp, event), FIELD_SEPARATOR) == LogFields(timestamp, event)
    ensures TimestampOf(LogBody(timestamp, event)) == timestamp
    ensures RowOf(index, LogBody(timestamp, event)) ==
      Row(index + 1, Some(timestamp), Some("Event: " + event.eventType), Some("ID: " + event.id),
          Some("Customer ID: " + CustomerIdText(event.payload)))
  {
    LogBodyIsJoin(timestamp, event);
    SplitJoin(LogFields(timestamp, event), FIELD_SEPARATOR);
  }

  /**
   * The fields of a receiver line are separator-free when the timestamp has
   * no spaces (as an ISO timestamp) and the type, id and customer id have no
   * '-' (as the provider's identifiers).
   */
  lemma PlainFieldsDelimit(timestamp: string, event: Event)
    requires ' ' !in timestamp
    requires '-' !in event.eventType && '-' !in event.id && '-' !in CustomerIdText(event.payload)
    ensures var f := LogFields(timestamp, event);
            Delimits(f[0], FIELD_SEPARATOR) && Delimits(f[1], FIELD_SEPARATOR)
            && Delimits(f[2], FIELD_SEPARATOR) && Free(f[3], FIELD_SEPARATOR)
  {
    var f := LogFields(timestamp, event);
    NoSpaceDelimits(f[0]);
    NoDashDelimits(f[1]);
    NoDashDelimits(f[2]);
    NoDashDelimits(f[3]);
  }

  /**
   * The writer/reader round trip for one event: for an ISO timestamp (no
   * spaces) and a type, id and customer id without '-' (as the provider's
   * identifiers are) and without newlines, appending the receiver's entry to
   * a log that is empty or ends with a newline adds exactly one entry, and
   * that entry's row shows the four fields the receiver wrote.
   */
  lemma WebhookEntryReadBack(text: string, timestamp: string, event: Event, index: nat)
    requires text == [] || text[|text| - 1] == '\n'
    requires ' ' !in timestamp && '\n' !in timestamp
    requires '-' !in event.eventType && '\n' !in event.eventType
    requires '-' !in event.id && '\n' !in event.id
    requires '-' !in CustomerIdText(event.payload) && '\n' !in CustomerIdText(event.payload)
    ensures Entries(text + LogEntry(timestamp, event)) == Entries(text) + [LogBody(timestamp, event)]
    ensures RowOf(index, LogBody(timestamp, event)) ==
      Row(index + 1, Some(timestamp), Some("Event: " + event.eventType), Some("ID: " + event.id),
          Some("Customer ID: " + CustomerIdText(event.payload)))
  {
    var entry := LogEntry(timestamp, event);
    var body := LogBody(timestamp, event);
    assert '\n' !in timestamp + event.eventType + event.id + CustomerIdText(event.payload);
    assert entry == body + NEWLINE;
    assert text + entry == text + body + NEWLINE;
    AppendReadBack(text, body);
    PlainFieldsDelimit(timestamp, event);
    LogLineFields(timestamp, event, index);
  }

  /**
   * What the viewer shows for an entry the receiver wrote: when the entry at
   * position `i` is the receiver's line for an ISO timestamp (no spaces) and a
   * type, id and customer id without '-', the table's row `i` is numbered
   * `i + 1` and shows the timestamp unchanged, then "Event: <type>",
   * "ID: <id>" and "Customer ID: <cid>".
   */
  lemma RenderedWebhookRow(logs: seq<string>, i: nat, timestamp: string, event: Event)
    requires i < |logs| && logs[i] == LogBody(timestamp, event)
    requires ' ' !in timestamp
    requires '-' !in event.eventType && '-' !in event.id && '-' !in CustomerIdText(event.payload)
    ensures Render(logs).body.Table?
    ensures Render(logs).body.rows[i] ==
      Row(i + 1, Some(timestamp), Some("Event: " + event.eventType), Some("ID: " + event.id),
          Some("Customer ID: " + CustomerIdText(event.payload)))
  {
    PlainFieldsDelimit(timestamp, event);
    LogLineFields(timestamp, event, i);
  }
}
