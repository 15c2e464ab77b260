/**
`parse_parts`: the rows of the part tables of a unit page.  A row is a part, a nameless row that is
set aside, or malformed; rows of one natural key are merged, the later one winning as it would in
the database.
*/
module PartParse {
  import opened Wrappers
  import opened Links
  import opened Sanitizer
  import opened GroupReplay
  import opened PartStore

  // ---------------------------------------------------------------- tables

  /** What a header label stands for, after its spelling was normalised. */
  datatype Column = Number | Name | Code | Quantity | Range | NoteLike | Unknown

  datatype Label = Label(text: string, column: Column)

  /** A link in the first cell: which element of the page it is, whether its path is that of a part
      search, and whether it leads to the site. */
  datatype SearchLink = SearchLink(at: nat, search: bool, onSite: bool)

  datatype Row = Row(cells: seq<string>, links: seq<SearchLink>)

  /** An outermost table with its header labels, none if it has no header row. */
  datatype PartTable = PartTable(labels: seq<Label>, rows: seq<Row>)

  datatype PartRecord = PartRecord(number: string, name: string, code: string, note: string, quantity: string,
                                   range: string)

  function KeyOf(p: PartRecord): PartKey { (p.number, p.range) }

  /** The last column with this meaning, or the number of columns. */
  function ColumnAt(labels: seq<Label>, column: Column): (i: nat)
    ensures i <= |labels|
    ensures i < |labels| ==> labels[i].column == column
    ensures i < |labels| <==> exists l :: l in labels && l.column == column
  {
    if labels == [] then 0 else
      var n := |labels| - 1;
      assert labels == labels[..n] + [labels[n]];
      if labels[n].column == column then n
      else
        var i := ColumnAt(labels[..n], column);
        if i < n then i else n + 1
  }

  predicate Usable(labels: seq<Label>) {
    ColumnAt(labels, Number) < |labels| && ColumnAt(labels, Name) < |labels| && ColumnAt(labels, Code) < |labels|
  }

  function CellAt(labels: seq<Label>, cells: seq<string>, column: Column): string
    requires |cells| == |labels|
  {
    var i := ColumnAt(labels, column);
    if i < |labels| then cells[i] else ""
  }

  /** The cells of the note columns that are not empty, with their labels. */
  function NoteParts(labels: seq<Label>, cells: seq<string>): seq<string>
    requires |cells| == |labels|
  {
    if labels == [] then [] else
      var n := |labels| - 1;
      NoteParts(labels[..n], cells[..n]) +
      if labels[n].column == NoteLike && cells[n] != "" then [labels[n].text + ": " + cells[n]] else []
  }

  function JoinNotes(parts: seq<string>): string {
    if parts == [] then "" else if |parts| == 1 then parts[0]
    else JoinNotes(parts[..|parts| - 1]) + "; " + parts[|parts| - 1]
  }

  predicate SingleNote(labels: seq<Label>) {
    var i := ColumnAt(labels, NoteLike);
    && i < |labels| && Lower(labels[i].text) == "note"
    && forall j :: 0 <= j < |labels| && labels[j].column == NoteLike ==> j == i
  }

  function NoteOf(labels: seq<Label>, cells: seq<string>): string
    requires |cells| == |labels|
  {
    if SingleNote(labels) then CellAt(labels, cells, NoteLike) else JoinNotes(NoteParts(labels, cells))
  }

  /** The record a row spells out; without a header the six columns have fixed places. */
  function RecordOf(labels: seq<Label>, cells: seq<string>): PartRecord
    requires if labels == [] then |cells| == 6 else |cells| == |labels|
  {
    if labels == [] then PartRecord(cells[0], cells[1], cells[2], cells[3], cells[4], cells[5])
    else PartRecord(CellAt(labels, cells, Number), CellAt(labels, cells, Name), CellAt(labels, cells, Code),
                    NoteOf(labels, cells), CellAt(labels, cells, Quantity), CellAt(labels, cells, Range))
  }

  // ---------------------------------------------------------------- one row

  datatype Verdict = Ignored | Malformed | Nameless(record: PartRecord) | Listed(record: PartRecord)

  predicate OnPage(page: seq<Element>, row: Row) { forall l :: l in row.links ==> l.at < |page| }

  predicate IsCandidate(row: Row) { row.cells != [] && exists l :: l in row.links && l.search }

  /** Every search link is the site's own and asks for exactly this part number. */
  predicate Confirms(page: seq<Element>, row: Row, number: string)
    requires OnPage(page, row)
  {
    forall l :: l in row.links && l.search ==> l.onSite && Qs(page[l.at].link, "q") == Some(number)
  }

  predicate Fits(labels: seq<Label>, row: Row) {
    if labels == [] then |row.cells| == 6 else Usable(labels) && |row.cells| == |labels|
  }

  /** A row without a name may hold nothing but its own number, code, quantity, range and notes. */
  predicate OnlyKnownCells(labels: seq<Label>, cells: seq<string>, r: PartRecord) {
    forall i :: 0 <= i < |cells| ==>
      cells[i] in {r.number, r.code, r.quantity, r.range, ""} || Noted(labels, cells, cells[i])
  }

  predicate Noted(labels: seq<Label>, cells: seq<string>, text: string) {
    exists j :: 0 <= j < |labels| && j < |cells| && labels[j].column == NoteLike && cells[j] == text
  }

  function Judge(page: seq<Element>, labels: seq<Label>, row: Row): Verdict
    requires OnPage(page, row)
  {
    if !IsCandidate(row) then Ignored
    else if !Fits(labels, row) then Malformed
    else
      var r := RecordOf(labels, row.cells);
      if !Confirms(page, row, r.number) then Malformed
      else if r.name == "" then if r.code == "" || !OnlyKnownCells(labels, row.cells, r) then Malformed else Nameless(r)
      else Listed(r)
  }

  // ---------------------------------------------------------------- the page

  /** `skipped` holds the nameless rows; `accepted` counts part rows before merging. */
  datatype Parsed = Parsed(parts: seq<PartRecord>, malformed: nat, skipped: seq<PartRecord>)

  /** Position of the part with this key, or the number of parts. */
  function Position(parts: seq<PartRecord>, key: PartKey): (i: nat)
    ensures i <= |parts|
    ensures i < |parts| ==> KeyOf(parts[i]) == key
    ensures i == |parts| <==> forall p :: p in parts ==> KeyOf(p) != key
  {
    if parts == [] then 0 else if KeyOf(parts[0]) == key then 0 else Position(parts[1..], key) + 1
  }

  /** A dictionary entry: a new key goes to the end, a known one keeps its place. */
  function PutPart(parts: seq<PartRecord>, p: PartRecord): seq<PartRecord> {
    var i := Position(parts, KeyOf(p));
    if i < |parts| then parts[i := p] else parts + [p]
  }

  function Add(st: Parsed, v: Verdict): Parsed {
    match v
    case Ignored => st
    case Malformed => st.(malformed := st.malformed + 1)
    case Nameless(r) => st.(skipped := st.skipped + [r])
    case Listed(r) => st.(parts := PutPart(st.parts, r))
  }

  function Collect(verdicts: seq<Verdict>): Parsed {
    if verdicts == [] then Parsed([], 0, []) else Add(Collect(verdicts[..|verdicts| - 1]), verdicts[|verdicts| - 1])
  }

  ghost predicate AllOnPage(page: seq<Element>, tables: seq<PartTable>) {
    forall t :: t in tables ==> forall row :: row in t.rows ==> OnPage(page, row)
  }

  function RowVerdicts(page: seq<Element>, labels: seq<Label>, rows: seq<Row>): seq<Verdict>
    requires forall row :: row in rows ==> OnPage(page, row)
  {
    if rows == [] then [] else
      var n := |rows| - 1;
      assert rows == rows[..n] + [rows[n]];
      RowVerdicts(page, labels, rows[..n]) + [Judge(page, labels, rows[n])]
  }

  function Verdicts(page: seq<Element>, tables: seq<PartTable>): seq<Verdict>
    requires AllOnPage(page, tables)
  {
    if tables == [] then [] else
      var n := |tables| - 1;
      assert tables == tables[..n] + [tables[n]];
      Verdicts(page, tables[..n]) + RowVerdicts(page, tables[n].labels, tables[n].rows)
  }

  lemma CollectNext(verdicts: seq<Verdict>, v: Verdict)
    ensures Collect(verdicts + [v]) == Add(Collect(verdicts), v)
  {
    assert (verdicts + [v])[..|verdicts|] == verdicts;
  }

  // ---------------------------------------------------------------- merging is what the table does

  /** The part rows in page order, before any are merged. */
  function Listings(verdicts: seq<Verdict>): seq<PartRecord> {
    if verdicts == [] then [] else
      var n := |verdicts| - 1;
      Listings(verdicts[..n]) + if verdicts[n].Listed? then [verdicts[n].record] else []
  }

  function Stored(records: seq<PartRecord>, payload: PartRecord -> string): (parts: seq<PartStore.Part>)
    ensures |parts| == |records|
    ensures forall i :: 0 <= i < |records| ==> parts[i] == PartStore.Part(KeyOf(records[i]), payload(records[i]), true)
  {
    seq(|records|, i requires 0 <= i < |records| => PartStore.Part(KeyOf(records[i]), payload(records[i]), true))
  }

  ghost predicate UniqueKeys(parts: seq<PartRecord>) {
    forall i, j :: 0 <= i < j < |parts| ==> KeyOf(parts[i]) != KeyOf(parts[j])
  }

  lemma PutKeepsUnique(parts: seq<PartRecord>, p: PartRecord)
    requires UniqueKeys(parts)
    ensures UniqueKeys(PutPart(parts, p))
  {
    var at := Position(parts, KeyOf(p));
    if at == |parts| { assert forall i :: 0 <= i < |parts| ==> parts[i] in parts; }
  }

  /** The parser's parts have distinct natural keys, whatever the page repeats. */
  lemma {:induction false} PartKeysAreDistinct(verdicts: seq<Verdict>, payload: PartRecord -> string)
    ensures UniqueKeys(Collect(verdicts).parts)
    ensures DistinctKeys(Stored(Collect(verdicts).parts, payload))
  {
    if verdicts != [] {
      var n := |verdicts| - 1;
      PartKeysAreDistinct(verdicts[..n], payload);
      if verdicts[n].Listed? { PutKeepsUnique(Collect(verdicts[..n]).parts, verdicts[n].record); }
    }
  }

  /** Replacing the record of a key, or appending it, stores what inserting it last stores. */
  lemma InsertPut(rows: map<RowKey, PartStore.PartRow>, group: int, parts: seq<PartRecord>, p: PartRecord, run: int,
                  payload: PartRecord -> string)
    requires UniqueKeys(parts)
    ensures InsertAll(rows, group, Stored(PutPart(parts, p), payload), run)
         == InsertAll(rows, group, Stored(parts, payload), run)
              [(group, KeyOf(p)) := PartStore.PartRow(payload(p), Some(run))]
  {
    var at := Position(parts, KeyOf(p));
    if at == |parts| {
      InsertLast(rows, group, parts + [p], run, payload);
      assert (parts + [p])[..|parts|] == parts;
    } else {
      InsertReplaced(rows, group, parts, at, p, run, payload);
    }
  }

  lemma {:induction false} InsertReplaced(rows: map<RowKey, PartStore.PartRow>, group: int, parts: seq<PartRecord>,
                                          at: nat, p: PartRecord, run: int, payload: PartRecord -> string)
    requires UniqueKeys(parts) && at < |parts| && KeyOf(parts[at]) == KeyOf(p)
    ensures InsertAll(rows, group, Stored(parts[at := p], payload), run)
         == InsertAll(rows, group, Stored(parts, payload), run)
              [(group, KeyOf(p)) := PartStore.PartRow(payload(p), Some(run))]
  {
    var n := |parts| - 1;
    var changed := parts[at := p];
    KeysApart(parts, at);
    hide UniqueKeys, InsertAll, Stored;
    InsertLast(rows, group, parts, run, payload);
    InsertLast(rows, group, changed, run, payload);
    var before := InsertAll(rows, group, Stored(parts[..n], payload), run);
    var row := PartStore.PartRow(payload(p), Some(run));
    var last := PartStore.PartRow(payload(parts[n]), Some(run));
    if at == n {
      assert changed[..n] == parts[..n];
      UpdatedTwice(before, (group, KeyOf(p)), last, row);
    } else {
      InsertReplaced(rows, group, parts[..n], at, p, run, payload);
      assert changed[..n] == parts[..n][at := p];
      UpdatesCommute(before, (group, KeyOf(p)), row, (group, KeyOf(parts[n])), last);
    }
  }

  lemma UpdatedTwice<K, V>(m: map<K, V>, k: K, first: V, second: V)
    ensures m[k := first][k := second] == m[k := second]
  {
  }

  lemma UpdatesCommute<K, V>(m: map<K, V>, j: K, x: V, k: K, y: V)
    requires j != k
    ensures m[j := x][k := y] == m[k := y][j := x]
  {
  }

  /** The last record is inserted last. */
  lemma InsertLast(rows: map<RowKey, PartStore.PartRow>, group: int, parts: seq<PartRecord>, run: int,
                   payload: PartRecord -> string)
    requires parts != []
    ensures var n := |parts| - 1;
      InsertAll(rows, group, Stored(parts, payload), run)
        == InsertAll(rows, group, Stored(parts[..n], payload), run)
             [(group, KeyOf(parts[n])) := PartStore.PartRow(payload(parts[n]), Some(run))]
  {
    assert Stored(parts, payload)[..|parts| - 1] == Stored(parts[..|parts| - 1], payload);
  }

  lemma KeysApart(parts: seq<PartRecord>, at: nat)
    requires UniqueKeys(parts) && at < |parts|
    ensures UniqueKeys(parts[..|parts| - 1])
    ensures at < |parts| - 1 ==> KeyOf(parts[at]) != KeyOf(parts[|parts| - 1])
  {
  }

  /** Merging rows on the page and merging them in the table is the same: storing the merged parts gives
      the table that storing every part row in page order gives. */
  lemma {:induction false} MergingRefinesUpsert(rows: map<RowKey, PartStore.PartRow>, group: int,
                                                verdicts: seq<Verdict>, run: int, payload: PartRecord -> string)
    ensures InsertAll(rows, group, Stored(Collect(verdicts).parts, payload), run)
      == InsertAll(rows, group, Stored(Listings(verdicts), payload), run)
  {
    if verdicts != [] {
      var n := |verdicts| - 1;
      hide UniqueKeys, DistinctKeys, PutPart, Position, InsertAll, Stored;
      MergingRefinesUpsert(rows, group, verdicts[..n], run, payload);
      if verdicts[n].Listed? {
        PartKeysAreDistinct(verdicts[..n], payload);
        InsertPut(rows, group, Collect(verdicts[..n]).parts, verdicts[n].record, run, payload);
        InsertLast(rows, group, Listings(verdicts), run, payload);
        assert Listings(verdicts)[..|Listings(verdicts[..n])|] == Listings(verdicts[..n]);
      } else {
        assert Listings(verdicts) == Listings(verdicts[..n]);
      }
    } else {
      assert Stored(Collect(verdicts).parts, payload) == [] && Stored(Listings(verdicts), payload) == [];
    }
  }

  function Candidates(verdicts: seq<Verdict>): nat {
    if verdicts == [] then 0
    else Candidates(verdicts[..|verdicts| - 1]) + if verdicts[|verdicts| - 1].Ignored? then 0 else 1
  }

  /** No candidate row is lost: each is malformed, set aside or listed. */
  lemma {:induction false} EveryCandidateIsCounted(verdicts: seq<Verdict>)
    ensures Candidates(verdicts) == Collect(verdicts).malformed + |Collect(verdicts).skipped| + |Listings(verdicts)|
    ensures |Collect(verdicts).parts| <= |Listings(verdicts)|
  {
    if verdicts != [] { EveryCandidateIsCounted(verdicts[..|verdicts| - 1]); }
  }

  // ---------------------------------------------------------------- sanitised replay

  lemma JudgedAlike(page: seq<Element>, names: Aliases, labels: seq<Label>, row: Row)
    requires Numbered(names) && NotBlank(names) && AllCovered(page, names) && OnPage(page, row)
    ensures OnPage(RenamePage(page, names), row)
      && Judge(RenamePage(page, names), labels, row) == Judge(page, labels, row)
  {
    hide Numbered, RecordOf, OnlyKnownCells, Fits;
    var stored := RenamePage(page, names);
    forall l | l in row.links ensures Qs(stored[l.at].link, "q") == Qs(page[l.at].link, "q") {
      assert page[l.at] in page && "q" in PUBLIC_KEYS;
      FirstIsRenamed(page[l.at].link.query, names, "q");
    }
    assert forall number :: Confirms(stored, row, number) <==> Confirms(page, row, number);
  }

  lemma {:induction false} RowsJudgedAlike(page: seq<Element>, names: Aliases, labels: seq<Label>, rows: seq<Row>)
    requires Numbered(names) && NotBlank(names) && AllCovered(page, names)
    requires forall row :: row in rows ==> OnPage(page, row)
    ensures forall row :: row in rows ==> OnPage(RenamePage(page, names), row)
    ensures RowVerdicts(RenamePage(page, names), labels, rows) == RowVerdicts(page, labels, rows)
  {
    hide Numbered, NotBlank, AllCovered, Judge;
    if rows != [] {
      var n := |rows| - 1;
      assert rows == rows[..n] + [rows[n]];
      RowsJudgedAlike(page, names, labels, rows[..n]);
      JudgedAlike(page, names, labels, rows[n]);
    }
  }

  lemma {:induction false} TablesJudgedAlike(page: seq<Element>, names: Aliases, tables: seq<PartTable>)
    requires Numbered(names) && NotBlank(names) && AllCovered(page, names) && AllOnPage(page, tables)
    ensures AllOnPage(RenamePage(page, names), tables)
    ensures Verdicts(RenamePage(page, names), tables) == Verdicts(page, tables)
  {
    hide Numbered, NotBlank, AllCovered, OnPage;
    if tables != [] {
      var n := |tables| - 1;
      assert tables == tables[..n] + [tables[n]];
      TablesJudgedAlike(page, names, tables[..n]);
      RowsJudgedAlike(page, names, tables[n].labels, tables[n].rows);
    }
  }

  /** Part pages: the stored page gives the same parts, the same nameless rows and the same number of
      malformed rows, on every page. */
  lemma ReplayPreservesParts(page: seq<Element>, tables: seq<PartTable>)
    requires AllOnPage(page, tables)
    ensures AllOnPage(SanitizePage(page), tables)
    ensures Collect(Verdicts(SanitizePage(page), tables)) == Collect(Verdicts(page, tables))
  {
    hide SanitizePage, Numbered, NotBlank, AllCovered, AllOnPage, Verdicts;
    var names := PageIsRenamed(page);
    TablesJudgedAlike(page, names, tables);
  }
}
