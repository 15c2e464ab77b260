/**
What a part page says, row by row, written on its cells and links: which rows are parts, which are set
aside and which are malformed, and what `parse_parts` makes of them.
*/
module PartMeaning {
  import opened Wrappers
  import opened Links
  import opened LinkMeaning
  import opened Sanitizer
  import opened GroupReplay
  import opened PartParse

  // ---------------------------------------------------------------- cells under their headers

  /** `text` stands in the last column with this meaning. */
  ghost predicate Under(labels: seq<Label>, cells: seq<string>, column: Column, text: string) {
    exists i :: 0 <= i < |labels| && i < |cells| && cells[i] == text && LastWith(labels, column, i)
  }

  ghost predicate LastWith(labels: seq<Label>, column: Column, i: nat) {
    && i < |labels| && labels[i].column == column
    && forall j :: i < j < |labels| ==> labels[j].column != column
  }

  ghost predicate Missing(labels: seq<Label>, column: Column) { forall l :: l in labels ==> l.column != column }

  ghost predicate UnderOrBlank(labels: seq<Label>, cells: seq<string>, column: Column, text: string) {
    Under(labels, cells, column, text) || (Missing(labels, column) && text == "")
  }

  predicate NotePlace(labels: seq<Label>, cells: seq<string>, i: int) {
    0 <= i < |labels| && i < |cells| && labels[i].column == NoteLike && cells[i] != ""
  }

  /** The filled note cells at these places, each behind its label, joined with semicolons. */
  function Notes(labels: seq<Label>, cells: seq<string>, places: seq<int>): string
    requires forall m :: 0 <= m < |places| ==> NotePlace(labels, cells, places[m])
    decreases places
  {
    if places == [] then ""
    else
      var n := |places| - 1;
      assert NotePlace(labels, cells, places[n]);
      var last := labels[places[n]].text + ": " + cells[places[n]];
      if n == 0 then last else Notes(labels, cells, places[..n]) + "; " + last
  }

  /** A lone column called "note" is shown as it is, all others behind their labels. */
  ghost predicate NoteShown(labels: seq<Label>, cells: seq<string>, text: string) {
    if exists i: nat :: OnlyNote(labels, i) && Lower(labels[i].text) == "note"
    then Under(labels, cells, NoteLike, text)
    else exists places :: AllNotes(labels, cells, places) && text == Notes(labels, cells, places)
  }

  ghost predicate OnlyNote(labels: seq<Label>, i: nat) {
    i < |labels| && forall j :: 0 <= j < |labels| ==> (labels[j].column == NoteLike <==> j == i)
  }

  ghost predicate AllNotes(labels: seq<Label>, cells: seq<string>, places: seq<int>) {
    Increasing(places) && forall i :: i in places <==> NotePlace(labels, cells, i)
  }

  /** The cells spell the record: without a header by their six places, with one by their columns. */
  ghost predicate Shows(labels: seq<Label>, cells: seq<string>, r: PartRecord) {
    if labels == [] then
      && |cells| == 6
      && cells[0] == r.number && cells[1] == r.name && cells[2] == r.code
      && cells[3] == r.note && cells[4] == r.quantity && cells[5] == r.range
    else
      && |cells| == |labels|
      && Under(labels, cells, Number, r.number) && Under(labels, cells, Name, r.name)
      && Under(labels, cells, Code, r.code) && UnderOrBlank(labels, cells, Quantity, r.quantity)
      && UnderOrBlank(labels, cells, Range, r.range) && NoteShown(labels, cells, r.note)
  }

  // ---------------------------------------------------------------- rows

  ghost predicate HasSearch(row: Row) { row.cells != [] && exists l :: l in row.links && l.search }

  /** All search links of the row lead to the site and ask for `number`. */
  ghost predicate AllAsk(page: seq<Element>, row: Row, number: string)
    requires OnPage(page, row)
  {
    forall l :: l in row.links && l.search ==> l.onSite && Asks(page[l.at].link.query, "q", number)
  }

  /** The row is the part `r`. */
  ghost predicate PartRow(page: seq<Element>, labels: seq<Label>, row: Row, r: PartRecord)
    requires OnPage(page, row)
  {
    HasSearch(row) && Shows(labels, row.cells, r) && AllAsk(page, row, r.number) && r.name != ""
  }

  /** The row is a part without a name: it has a code, and no cell that is not accounted for. */
  ghost predicate NamelessRow(page: seq<Element>, labels: seq<Label>, row: Row, r: PartRecord)
    requires OnPage(page, row)
  {
    && HasSearch(row) && Shows(labels, row.cells, r) && AllAsk(page, row, r.number) && r.name == "" && r.code != ""
    && forall i :: 0 <= i < |row.cells| && row.cells[i] != "" ==> Accounted(labels, row.cells, r, row.cells[i])
  }

  /** The text is one of the other fields, or stands in a note column. */
  ghost predicate Accounted(labels: seq<Label>, cells: seq<string>, r: PartRecord, text: string) {
    || text == r.number || text == r.code || text == r.quantity || text == r.range
    || exists j :: 0 <= j < |labels| && j < |cells| && labels[j].column == NoteLike && cells[j] == text
  }

  /** The row looks like a part and is none. */
  ghost predicate BrokenRow(page: seq<Element>, labels: seq<Label>, row: Row)
    requires OnPage(page, row)
  {
    HasSearch(row) && forall r :: !PartRow(page, labels, row, r) && !NamelessRow(page, labels, row, r)
  }

  // ---------------------------------------------------------------- the record of a row

  lemma LastIs(labels: seq<Label>, column: Column, i: nat)
    requires LastWith(labels, column, i)
    ensures ColumnAt(labels, column) == i
  {
    if ColumnAt(labels, column) != i {
      assert labels[i] in labels;
      ColumnIsLast(labels, column);
    }
  }

  lemma {:induction false} ColumnIsLast(labels: seq<Label>, column: Column)
    ensures ColumnAt(labels, column) < |labels| ==> LastWith(labels, column, ColumnAt(labels, column))
    ensures ColumnAt(labels, column) == |labels| <==> Missing(labels, column)
  {
    if labels != [] { ColumnIsLast(labels[..|labels| - 1], column); }
  }

  /** The text under a column is the only one. */
  lemma CellIs(labels: seq<Label>, cells: seq<string>, column: Column, text: string)
    requires |cells| == |labels|
    ensures Under(labels, cells, column, text)
       <==> ColumnAt(labels, column) < |labels| && CellAt(labels, cells, column) == text
    ensures UnderOrBlank(labels, cells, column, text) <==> CellAt(labels, cells, column) == text
    ensures Missing(labels, column) <==> ColumnAt(labels, column) == |labels|
  {
    ColumnIsLast(labels, column);
    if Under(labels, cells, column, text) {
      var i :| 0 <= i < |labels| && i < |cells| && cells[i] == text && LastWith(labels, column, i);
      LastIs(labels, column, i);
    }
  }

  // ---------------------------------------------------------------- its note

  lemma {:induction false} SamePlaces(labels: seq<Label>, cells: seq<string>, p: seq<int>, q: seq<int>)
    requires Increasing(p) && Increasing(q) && forall i :: i in p <==> i in q
    ensures p == q
    decreases p
  {
    if p == [] {
      HasFirst(q);
    } else {
      assert p[|p| - 1] in p && p[|p| - 1] in q;
      var m, n := |p| - 1, |q| - 1;
      LastIsGreatest(p);
      LastIsGreatest(q);
      assert q[n] in q && q[n] in p;
      assert p[m] == q[n];
      forall i ensures i in p[..m] <==> i in q[..n] {
        assert i in p <==> i in p[..m] || i == p[m];
        assert i in q <==> i in q[..n] || i == q[n];
      }
      SamePlaces(labels, cells, p[..m], q[..n]);
      assert p == p[..m] + [p[m]] && q == q[..n] + [q[n]];
    }
  }

  lemma HasFirst(places: seq<int>)
    ensures places == [] || places[0] in places
  {
  }

  lemma LastIsGreatest(places: seq<int>)
    requires Increasing(places) && places != []
    ensures forall i :: i in places ==> i <= places[|places| - 1]
    ensures forall m :: 0 <= m < |places| - 1 ==> places[m] < places[|places| - 1]
    ensures Increasing(places[..|places| - 1])
  {
  }

  /** The places of the filled note cells, and what they spell. */
  lemma {:induction false} NotePlaces(labels: seq<Label>, cells: seq<string>) returns (places: seq<int>)
    requires |cells| == |labels|
    ensures AllNotes(labels, cells, places) && |places| == |NoteParts(labels, cells)|
    ensures Notes(labels, cells, places) == JoinNotes(NoteParts(labels, cells))
  {
    if labels == [] {
      places := [];
    } else {
      var n := |labels| - 1;
      var before := NotePlaces(labels[..n], cells[..n]);
      AllNotesNext(labels, cells, before);
      NotesNext(labels, cells, before);
      places := if NotePlace(labels, cells, n) then before + [n] else before;
    }
  }

  lemma NotesNext(labels: seq<Label>, cells: seq<string>, before: seq<int>)
    requires |cells| == |labels| && labels != [] && AllNotes(labels[..|labels| - 1], cells[..|labels| - 1], before)
    requires var n := |labels| - 1;
      && |before| == |NoteParts(labels[..n], cells[..n])|
      && Notes(labels[..n], cells[..n], before) == JoinNotes(NoteParts(labels[..n], cells[..n]))
    ensures var places := if NotePlace(labels, cells, |labels| - 1) then before + [|labels| - 1] else before;
      && AllNotes(labels, cells, places) && |places| == |NoteParts(labels, cells)|
      && Notes(labels, cells, places) == JoinNotes(NoteParts(labels, cells))
  {
    hide JoinNotes;
    var n := |labels| - 1;
    var parts := NoteParts(labels[..n], cells[..n]);
    BeforeArePlaces(labels, cells, before);
    ShorterNotes(labels, cells, before);
    AllNotesNext(labels, cells, before);
    NotePartsNext(labels, cells);
    hide AllNotes, NoteParts;
    if NotePlace(labels, cells, n) {
      OneNoteMore(labels, cells, before);
      NotesJoin(parts, labels[n].text + ": " + cells[n]);
    }
  }

  lemma NotePartsNext(labels: seq<Label>, cells: seq<string>)
    requires |cells| == |labels| && labels != []
    ensures var n := |labels| - 1;
      NoteParts(labels, cells) ==
        if NotePlace(labels, cells, n) then NoteParts(labels[..n], cells[..n]) + [labels[n].text + ": " + cells[n]]
        else NoteParts(labels[..n], cells[..n])
  {
    assert NoteParts(labels[..|labels| - 1], cells[..|labels| - 1]) + [] ==
      NoteParts(labels[..|labels| - 1], cells[..|labels| - 1]);
  }

  lemma OneNoteMore(labels: seq<Label>, cells: seq<string>, places: seq<int>)
    requires |cells| == |labels| && labels != [] && NotePlace(labels, cells, |labels| - 1)
    requires forall m :: 0 <= m < |places| ==> NotePlace(labels, cells, places[m])
    ensures var n := |labels| - 1;
      var last := labels[n].text + ": " + cells[n];
      && (forall m :: 0 <= m < |places + [n]| ==> NotePlace(labels, cells, (places + [n])[m]))
      && Notes(labels, cells, places + [n])
         == if places == [] then last else Notes(labels, cells, places) + "; " + last
  {
    assert (places + [|labels| - 1])[..|places|] == places;
  }

  lemma BeforeArePlaces(labels: seq<Label>, cells: seq<string>, before: seq<int>)
    requires |cells| == |labels| && labels != [] && AllNotes(labels[..|labels| - 1], cells[..|labels| - 1], before)
    ensures forall m :: 0 <= m < |before| ==> NotePlace(labels[..|labels| - 1], cells[..|labels| - 1], before[m])
  {
    forall m | 0 <= m < |before| ensures NotePlace(labels[..|labels| - 1], cells[..|labels| - 1], before[m]) {
      assert before[m] in before;
    }
  }

  lemma AllNotesNext(labels: seq<Label>, cells: seq<string>, before: seq<int>)
    requires |cells| == |labels| && labels != [] && AllNotes(labels[..|labels| - 1], cells[..|labels| - 1], before)
    ensures AllNotes(labels, cells, if NotePlace(labels, cells, |labels| - 1) then before + [|labels| - 1] else before)
  {
    var n := |labels| - 1;
    var places := if NotePlace(labels, cells, n) then before + [n] else before;
    BeforeArePlaces(labels, cells, before);
    forall i ensures i in places <==> NotePlace(labels, cells, i) {
      assert i != n ==> (NotePlace(labels, cells, i) <==> NotePlace(labels[..n], cells[..n], i));
      assert i in places <==> i in before || (NotePlace(labels, cells, n) && i == n);
    }
  }

  lemma NotesJoin(parts: seq<string>, part: string)
    ensures JoinNotes(parts + [part]) == if parts == [] then part else JoinNotes(parts) + "; " + part
  {
    assert (parts + [part])[..|parts|] == parts;
  }

  /** Leaving out the last column changes nothing about the notes before it. */
  lemma {:induction false} ShorterNotes(labels: seq<Label>, cells: seq<string>, places: seq<int>)
    requires |cells| == |labels| && labels != []
    requires forall m :: 0 <= m < |places| ==> NotePlace(labels[..|labels| - 1], cells[..|labels| - 1], places[m])
    ensures forall m :: 0 <= m < |places| ==> NotePlace(labels, cells, places[m])
    ensures Notes(labels, cells, places) == Notes(labels[..|labels| - 1], cells[..|labels| - 1], places)
    decreases places
  {
    if places != [] {
      var n := |places| - 1;
      assert NotePlace(labels[..|labels| - 1], cells[..|labels| - 1], places[n]);
      ShorterNotes(labels, cells, places[..n]);
    }
  }

  lemma SingleNoteIff(labels: seq<Label>)
    ensures SingleNote(labels) <==> exists i: nat :: OnlyNote(labels, i) && Lower(labels[i].text) == "note"
  {
    hide Lower;
    var at := ColumnAt(labels, NoteLike);
    if SingleNote(labels) { assert OnlyNote(labels, at); }
    if exists i: nat :: OnlyNote(labels, i) && Lower(labels[i].text) == "note" {
      var i: nat :| OnlyNote(labels, i) && Lower(labels[i].text) == "note";
      LastIs(labels, NoteLike, i);
    }
  }

  lemma NoteIs(labels: seq<Label>, cells: seq<string>, text: string)
    requires |cells| == |labels|
    ensures NoteShown(labels, cells, text) <==> text == NoteOf(labels, cells)
  {
    hide Lower, NoteParts, JoinNotes, Notes, Under, SingleNote;
    SingleNoteIff(labels);
    if SingleNote(labels) {
      CellIs(labels, cells, NoteLike, text);
      SingleNoteStands(labels);
    } else {
      var places := NotePlaces(labels, cells);
      if exists q :: AllNotes(labels, cells, q) && text == Notes(labels, cells, q) {
        var q :| AllNotes(labels, cells, q) && text == Notes(labels, cells, q);
        SameNotes(labels, cells, places, q);
      }
    }
  }

  lemma SingleNoteStands(labels: seq<Label>)
    requires SingleNote(labels)
    ensures ColumnAt(labels, NoteLike) < |labels|
  {
  }

  lemma SameNotes(labels: seq<Label>, cells: seq<string>, p: seq<int>, q: seq<int>)
    requires AllNotes(labels, cells, p) && AllNotes(labels, cells, q)
    ensures p == q
  {
    forall i ensures i in p <==> i in q { assert i in p <==> NotePlace(labels, cells, i); }
    SamePlaces(labels, cells, p, q);
  }

  /** The record that the cells spell is the one that is read. */
  lemma ShownIsRead(labels: seq<Label>, row: Row, r: PartRecord)
    ensures Shows(labels, row.cells, r) <==> Fits(labels, row) && r == RecordOf(labels, row.cells)
  {
    var cells := row.cells;
    if labels != [] && |cells| == |labels| {
      CellIs(labels, cells, Number, r.number);
      CellIs(labels, cells, Name, r.name);
      CellIs(labels, cells, Code, r.code);
      CellIs(labels, cells, Quantity, r.quantity);
      CellIs(labels, cells, Range, r.range);
      NoteIs(labels, cells, r.note);
      hide Under, UnderOrBlank, NoteShown, CellAt, NoteOf, ColumnAt;
    }
  }

  // ---------------------------------------------------------------- one row

  lemma AskedIsConfirmed(page: seq<Element>, row: Row, number: string)
    requires OnPage(page, row)
    ensures AllAsk(page, row, number) <==> Confirms(page, row, number)
  {
    hide Asks, First;
    forall l | l in row.links && l.search
      ensures Asks(page[l.at].link.query, "q", number) <==> Qs(page[l.at].link, "q") == Some(number)
    {
      FirstIff(page[l.at].link.query, "q", number);
    }
  }

  lemma KnownCellsIff(labels: seq<Label>, row: Row, r: PartRecord)
    ensures OnlyKnownCells(labels, row.cells, r)
       <==> forall i :: 0 <= i < |row.cells| && row.cells[i] != "" ==> Accounted(labels, row.cells, r, row.cells[i])
  {
  }

  /** The three readings of a candidate row are exactly its three verdicts. */
  lemma JudgedAsRead(page: seq<Element>, labels: seq<Label>, row: Row, r: PartRecord)
    requires OnPage(page, row)
    ensures Judge(page, labels, row) == Listed(r) <==> PartRow(page, labels, row, r)
    ensures Judge(page, labels, row) == Nameless(r) <==> NamelessRow(page, labels, row, r)
    ensures Judge(page, labels, row) == Ignored <==> !HasSearch(row)
  {
    hide Shows, RecordOf, Confirms, AllAsk, OnlyKnownCells, Fits, Accounted;
    ShownIsRead(labels, row, r);
    AskedIsConfirmed(page, row, r.number);
    KnownCellsIff(labels, row, r);
  }

  lemma JudgedMalformed(page: seq<Element>, labels: seq<Label>, row: Row)
    requires OnPage(page, row)
    ensures Judge(page, labels, row) == Malformed <==> BrokenRow(page, labels, row)
  {
    hide Judge, PartRow, NamelessRow, HasSearch;
    forall r
      ensures Judge(page, labels, row) == Listed(r) <==> PartRow(page, labels, row, r)
      ensures Judge(page, labels, row) == Nameless(r) <==> NamelessRow(page, labels, row, r)
      ensures Judge(page, labels, row) == Ignored <==> !HasSearch(row)
    {
      JudgedAsRead(page, labels, row, r);
    }
    JudgedAsRead(page, labels, row, PartRecord("", "", "", "", "", ""));
  }

  // ---------------------------------------------------------------- all rows of a page

  /** A row with the header labels of its table. */
  datatype Line = Line(labels: seq<Label>, row: Row)

  /** The rows of a page in page order. */
  function Lines(tables: seq<PartTable>): (lines: seq<Line>)
    ensures forall line :: line in lines ==> exists t :: t in tables && line.labels == t.labels && line.row in t.rows
  {
    if tables == [] then [] else
      var n := |tables| - 1;
      var t := tables[n];
      assert tables == tables[..n] + [t];
      Lines(tables[..n]) + seq(|t.rows|, i requires 0 <= i < |t.rows| => Line(t.labels, t.rows[i]))
  }

  ghost predicate LinesOnPage(page: seq<Element>, lines: seq<Line>) {
    forall n :: 0 <= n < |lines| ==> OnPage(page, lines[n].row)
  }

  ghost predicate PartAt(page: seq<Element>, lines: seq<Line>, n: int, r: PartRecord)
    requires LinesOnPage(page, lines)
  {
    0 <= n < |lines| && PartRow(page, lines[n].labels, lines[n].row, r)
  }

  ghost predicate NamelessAt(page: seq<Element>, lines: seq<Line>, n: int, r: PartRecord)
    requires LinesOnPage(page, lines)
  {
    0 <= n < |lines| && NamelessRow(page, lines[n].labels, lines[n].row, r)
  }

  /** Row `n` is the last part row with its key. */
  ghost predicate LastPartAt(page: seq<Element>, lines: seq<Line>, n: int, r: PartRecord)
    requires LinesOnPage(page, lines)
  {
    PartAt(page, lines, n, r) && forall m, q :: n < m && PartAt(page, lines, m, q) ==> KeyOf(q) != KeyOf(r)
  }

  /** The key of `r` is shown before any row shows the key of `later`. */
  ghost predicate ShownBefore(page: seq<Element>, lines: seq<Line>, r: PartRecord, later: PartRecord)
    requires LinesOnPage(page, lines)
  {
    exists m, q :: PartAt(page, lines, m, q) && KeyOf(q) == KeyOf(r) && NotYet(page, lines, m, later)
  }

  ghost predicate NotYet(page: seq<Element>, lines: seq<Line>, m: int, later: PartRecord)
    requires LinesOnPage(page, lines)
  {
    forall k, q :: k <= m && PartAt(page, lines, k, q) ==> KeyOf(q) != KeyOf(later)
  }

  /** The parts are the last rows of their keys in the order in which the keys first appear. */
  ghost predicate PartsMean(page: seq<Element>, lines: seq<Line>, parts: seq<PartRecord>)
    requires LinesOnPage(page, lines)
  {
    && (forall r :: r in parts ==> exists n :: LastPartAt(page, lines, n, r))
    && (forall n, r :: PartAt(page, lines, n, r) ==> exists q :: q in parts && KeyOf(q) == KeyOf(r))
    && UniqueKeys(parts)
    && (forall i, j :: 0 <= i < j < |parts| ==> ShownBefore(page, lines, parts[i], parts[j]))
  }

  /** The rows set aside are the nameless rows in page order. */
  ghost predicate SkippedMean(page: seq<Element>, lines: seq<Line>, skipped: seq<PartRecord>)
    requires LinesOnPage(page, lines)
  {
    exists places: seq<int> :: SkippedAt(page, lines, skipped, places)
  }

  ghost predicate SkippedAt(page: seq<Element>, lines: seq<Line>, skipped: seq<PartRecord>, places: seq<int>)
    requires LinesOnPage(page, lines)
  {
    && |places| == |skipped| && Increasing(places)
    && (forall i :: 0 <= i < |places| ==> NamelessAt(page, lines, places[i], skipped[i]))
    && (forall n, r :: NamelessAt(page, lines, n, r) ==> n in places)
  }

  ghost function BrokenPlaces(page: seq<Element>, lines: seq<Line>): set<int>
    requires LinesOnPage(page, lines)
  {
    set n | 0 <= n < |lines| && BrokenRow(page, lines[n].labels, lines[n].row)
  }

  /** What a parse of the page must be. */
  ghost predicate PageMeans(page: seq<Element>, lines: seq<Line>, r: Parsed)
    requires LinesOnPage(page, lines)
  {
    && PartsMean(page, lines, r.parts) && SkippedMean(page, lines, r.skipped)
    && r.malformed == |BrokenPlaces(page, lines)|
  }

  // ---------------------------------------------------------------- one more row

  /** The row after `lines` is the part `p`, or none when `p` is absent. */
  ghost predicate NextPart(page: seq<Element>, lines: seq<Line>, line: Line, p: Option<PartRecord>)
    requires LinesOnPage(page, lines + [line])
  {
    LinesOnPage(page, lines)
    && forall n, r :: PartAt(page, lines + [line], n, r) <==>
         PartAt(page, lines, n, r) || (n == |lines| && p == Some(r))
  }

  lemma JudgedIsNext(page: seq<Element>, lines: seq<Line>, line: Line)
    requires LinesOnPage(page, lines + [line])
    ensures OnPage(page, line.row)
    ensures var v := Judge(page, line.labels, line.row);
      NextPart(page, lines, line, if v.Listed? then Some(v.record) else None)
  {
    hide PartRow, Judge;
    var all := lines + [line];
    assert all[|lines|] == line && forall n :: 0 <= n < |lines| ==> all[n] == lines[n];
    forall r ensures Judge(page, line.labels, line.row) == Listed(r) <==> PartRow(page, line.labels, line.row, r) {
      JudgedAsRead(page, line.labels, line.row, r);
    }
  }

  function PutIf(parts: seq<PartRecord>, p: Option<PartRecord>): seq<PartRecord> {
    if p.Some? then PutPart(parts, p.value) else parts
  }

  lemma PutKeys(parts: seq<PartRecord>, p: PartRecord)
    ensures |parts| <= |PutPart(parts, p)| <= |parts| + 1
    ensures forall i :: 0 <= i < |parts| ==> KeyOf(PutPart(parts, p)[i]) == KeyOf(parts[i])
    ensures |PutPart(parts, p)| > |parts| ==>
      PutPart(parts, p)[|parts|] == p && forall r :: r in parts ==> KeyOf(r) != KeyOf(p)
  {
  }

  lemma PutMembers(parts: seq<PartRecord>, p: PartRecord)
    requires UniqueKeys(parts)
    ensures p in PutPart(parts, p)
    ensures forall r :: r in PutPart(parts, p) ==> r == p || (r in parts && KeyOf(r) != KeyOf(p))
  {
    var at, put := Position(parts, KeyOf(p)), PutPart(parts, p);
    if at < |parts| {
      assert put[at] == p;
      forall r | r in put ensures r == p || (r in parts && KeyOf(r) != KeyOf(p)) {
        var i :| 0 <= i < |put| && put[i] == r;
        assert i != at ==> parts[i] == r && KeyOf(parts[i]) != KeyOf(parts[at]);
      }
    } else {
      assert put[|parts|] == p;
    }
  }

  lemma LastRowsNext(page: seq<Element>, lines: seq<Line>, line: Line, parts: seq<PartRecord>, p: Option<PartRecord>,
                     r: PartRecord)
    requires LinesOnPage(page, lines + [line]) && NextPart(page, lines, line, p) && PartsMean(page, lines, parts)
    requires r in PutIf(parts, p)
    ensures exists n :: LastPartAt(page, lines + [line], n, r)
  {
    hide PartAt, PutPart;
    if p.Some? { PutMembers(parts, p.value); }
    if p == Some(r) {
      assert LastPartAt(page, lines + [line], |lines|, r) by { NothingLater(page, lines + [line]); }
    } else {
      var n :| LastPartAt(page, lines, n, r);
      assert LastPartAt(page, lines + [line], n, r);
    }
  }

  lemma NothingLater(page: seq<Element>, lines: seq<Line>)
    requires LinesOnPage(page, lines)
    ensures forall n, r :: PartAt(page, lines, n, r) ==> 0 <= n < |lines|
  {
  }

  lemma KeysNext(page: seq<Element>, lines: seq<Line>, line: Line, parts: seq<PartRecord>, p: Option<PartRecord>,
                 n: int, r: PartRecord)
    requires LinesOnPage(page, lines + [line]) && NextPart(page, lines, line, p) && PartsMean(page, lines, parts)
    requires PartAt(page, lines + [line], n, r)
    ensures exists q :: q in PutIf(parts, p) && KeyOf(q) == KeyOf(r)
  {
    hide PartAt, PutPart, PutIf, UniqueKeys, LastPartAt, ShownBefore;
    if PartAt(page, lines, n, r) {
      var q :| q in parts && KeyOf(q) == KeyOf(r);
      KeyStays(parts, p, q);
    } else {
      assert p == Some(r);
      KeyArrives(parts, r);
    }
  }

  lemma KeyStays(parts: seq<PartRecord>, p: Option<PartRecord>, q: PartRecord)
    requires q in parts
    ensures exists r :: r in PutIf(parts, p) && KeyOf(r) == KeyOf(q)
  {
    var i :| 0 <= i < |parts| && parts[i] == q;
    if p.Some? { PutKeys(parts, p.value); }
    assert PutIf(parts, p)[i] in PutIf(parts, p) && KeyOf(PutIf(parts, p)[i]) == KeyOf(q);
  }

  lemma KeyArrives(parts: seq<PartRecord>, p: PartRecord)
    ensures p in PutPart(parts, p) && p in PutIf(parts, Some(p))
  {
    var at := Position(parts, KeyOf(p));
    assert at < |parts| ==> PutPart(parts, p)[at] == p;
    assert at == |parts| ==> PutPart(parts, p)[|parts|] == p;
  }

  lemma ShownBeforeNext(page: seq<Element>, lines: seq<Line>, line: Line, p: Option<PartRecord>,
                        a: PartRecord, b: PartRecord, c: PartRecord, d: PartRecord)
    requires LinesOnPage(page, lines + [line]) && NextPart(page, lines, line, p) && ShownBefore(page, lines, a, b)
    requires KeyOf(a) == KeyOf(c) && KeyOf(b) == KeyOf(d)
    ensures ShownBefore(page, lines + [line], c, d)
  {
    var m, q :| PartAt(page, lines, m, q) && KeyOf(q) == KeyOf(a) && NotYet(page, lines, m, b);
    NothingLater(page, lines);
    hide PartAt;
    assert PartAt(page, lines + [line], m, q) && NotYet(page, lines + [line], m, d);
  }

  lemma ShownBeforeNew(page: seq<Element>, lines: seq<Line>, line: Line, parts: seq<PartRecord>, p: PartRecord,
                       a: PartRecord)
    requires LinesOnPage(page, lines + [line]) && NextPart(page, lines, line, Some(p)) && PartsMean(page, lines, parts)
    requires a in parts && forall r :: r in parts ==> KeyOf(r) != KeyOf(p)
    ensures ShownBefore(page, lines + [line], a, p)
  {
    NothingLater(page, lines);
    hide PartAt;
    var n :| LastPartAt(page, lines, n, a);
    assert PartAt(page, lines + [line], n, a);
    forall k, q | k <= n && PartAt(page, lines + [line], k, q) ensures KeyOf(q) != KeyOf(p) {
      assert PartAt(page, lines, k, q);
      var other :| other in parts && KeyOf(other) == KeyOf(q);
    }
    assert NotYet(page, lines + [line], n, p);
  }

  lemma OrderNext(page: seq<Element>, lines: seq<Line>, line: Line, parts: seq<PartRecord>, p: Option<PartRecord>,
                  i: nat, j: nat)
    requires LinesOnPage(page, lines + [line]) && NextPart(page, lines, line, p) && PartsMean(page, lines, parts)
    requires i < j < |PutIf(parts, p)| && UniqueKeys(parts)
    requires j < |parts| ==> ShownBefore(page, lines, parts[i], parts[j])
    ensures ShownBefore(page, lines + [line], PutIf(parts, p)[i], PutIf(parts, p)[j])
  {
    hide PutPart, NextPart, PartsMean, UniqueKeys, ShownBefore;
    var put := PutIf(parts, p);
    if p.Some? { PutKeys(parts, p.value); }
    if j < |parts| {
      ShownBeforeNext(page, lines, line, p, parts[i], parts[j], put[i], put[j]);
    } else {
      ShownBeforeNew(page, lines, line, parts, put[j], parts[i]);
      SameKeyShown(page, lines + [line], parts[i], put[i], put[j]);
    }
  }

  lemma SameKeyShown(page: seq<Element>, lines: seq<Line>, a: PartRecord, b: PartRecord, c: PartRecord)
    requires LinesOnPage(page, lines) && ShownBefore(page, lines, a, c) && KeyOf(a) == KeyOf(b)
    ensures ShownBefore(page, lines, b, c)
  {
    hide PartAt, NotYet;
  }

  lemma PartsNext(page: seq<Element>, lines: seq<Line>, line: Line, parts: seq<PartRecord>, p: Option<PartRecord>)
    requires LinesOnPage(page, lines + [line]) && NextPart(page, lines, line, p) && PartsMean(page, lines, parts)
    ensures PartsMean(page, lines + [line], PutIf(parts, p))
  {
    hide PartAt, LastPartAt, NextPart, ShownBefore, PutPart;
    var put := PutIf(parts, p);
    if p.Some? { PutKeepsUnique(parts, p.value); }
    forall r | r in put ensures exists n :: LastPartAt(page, lines + [line], n, r) {
      LastRowsNext(page, lines, line, parts, p, r);
    }
    forall n, r | PartAt(page, lines + [line], n, r) ensures exists q :: q in put && KeyOf(q) == KeyOf(r) {
      KeysNext(page, lines, line, parts, p, n, r);
    }
    forall i, j | 0 <= i < j < |put| ensures ShownBefore(page, lines + [line], put[i], put[j]) {
      OrderNext(page, lines, line, parts, p, i, j);
    }
  }

  lemma SkippedNext(page: seq<Element>, lines: seq<Line>, line: Line, skipped: seq<PartRecord>, v: Verdict)
    requires LinesOnPage(page, lines + [line]) && LinesOnPage(page, lines) && SkippedMean(page, lines, skipped)
    requires OnPage(page, line.row) && v == Judge(page, line.labels, line.row)
    ensures SkippedMean(page, lines + [line], if v.Nameless? then skipped + [v.record] else skipped)
  {
    hide Judge, NamelessRow;
    var all := lines + [line];
    assert all[|lines|] == line && forall n :: 0 <= n < |lines| ==> all[n] == lines[n];
    forall r ensures v == Nameless(r) <==> NamelessRow(page, line.labels, line.row, r) {
      JudgedAsRead(page, line.labels, line.row, r);
    }
    var places :| SkippedAt(page, lines, skipped, places);
    var next := if v.Nameless? then places + [|lines|] else places;
    forall n, r | NamelessAt(page, all, n, r) ensures n in next {
      assert n < |lines| ==> NamelessAt(page, lines, n, r);
      assert n == |lines| ==> next == places + [|lines|];
    }
    assert SkippedAt(page, all, if v.Nameless? then skipped + [v.record] else skipped, next);
  }

  lemma BrokenNext(page: seq<Element>, lines: seq<Line>, line: Line)
    requires LinesOnPage(page, lines + [line]) && LinesOnPage(page, lines) && OnPage(page, line.row)
    ensures |BrokenPlaces(page, lines + [line])|
         == |BrokenPlaces(page, lines)| + if Judge(page, line.labels, line.row).Malformed? then 1 else 0
  {
    hide Judge, BrokenRow;
    var all := lines + [line];
    assert all[|lines|] == line && forall n :: 0 <= n < |lines| ==> all[n] == lines[n];
    JudgedMalformed(page, line.labels, line.row);
    assert BrokenPlaces(page, all) ==
      BrokenPlaces(page, lines) + if BrokenRow(page, line.labels, line.row) then {|lines|} else {};
  }

  /** A row more on the page, and its verdict more in the parse. */
  lemma MeansNext(page: seq<Element>, lines: seq<Line>, line: Line, r: Parsed)
    requires LinesOnPage(page, lines + [line]) && LinesOnPage(page, lines) && PageMeans(page, lines, r)
    requires OnPage(page, line.row)
    ensures PageMeans(page, lines + [line], Add(r, Judge(page, line.labels, line.row)))
  {
    hide Judge, PartsMean, SkippedMean, BrokenPlaces, NextPart, PutPart;
    var v := Judge(page, line.labels, line.row);
    JudgedIsNext(page, lines, line);
    PartsNext(page, lines, line, r.parts, if v.Listed? then Some(v.record) else None);
    SkippedNext(page, lines, line, r.skipped, v);
    BrokenNext(page, lines, line);
  }

  lemma NothingMeans(page: seq<Element>)
    ensures PageMeans(page, [], Parsed([], 0, []))
  {
    var none: seq<int> := [];
    assert SkippedAt(page, [], [], none);
    assert BrokenPlaces(page, []) == {};
  }
}
