/**
`parse_parts` as it runs: two loops over tables and rows, a dictionary, a list and two counters.
*/
module PartReader {
  import opened GroupReplay
  import opened PartParse
  import opened PartMeaning

  lemma LinesAreOnPage(page: seq<Element>, tables: seq<PartTable>)
    requires AllOnPage(page, tables)
    ensures LinesOnPage(page, Lines(tables))
  {
    hide OnPage;
    forall n | 0 <= n < |Lines(tables)| ensures OnPage(page, Lines(tables)[n].row) {
      assert Lines(tables)[n] in Lines(tables);
    }
  }

  /** The lines of the tables before `i` and of the rows of table `i` before `j`. */
  function LinesUpTo(tables: seq<PartTable>, i: nat, j: nat): seq<Line>
    requires i < |tables| && j <= |tables[i].rows|
  {
    Lines(tables[..i]) + seq(j, k requires 0 <= k < j => Line(tables[i].labels, tables[i].rows[k]))
  }

  lemma LinesNext(tables: seq<PartTable>, i: nat, j: nat)
    requires i < |tables| && j < |tables[i].rows|
    ensures LinesUpTo(tables, i, j + 1) == LinesUpTo(tables, i, j) + [Line(tables[i].labels, tables[i].rows[j])]
  {
  }

  lemma LinesOfTable(tables: seq<PartTable>, i: nat)
    requires i < |tables|
    ensures LinesUpTo(tables, i, 0) == Lines(tables[..i])
    ensures LinesUpTo(tables, i, |tables[i].rows|) == Lines(tables[..i + 1])
  {
    assert tables[..i + 1][..i] == tables[..i];
  }

  /** Part by part and row by row the result is what the cells and links of the page say. */
  method ReadParts(page: seq<Element>, tables: seq<PartTable>) returns (r: Parsed)
    requires AllOnPage(page, tables)
    ensures r == Collect(Verdicts(page, tables))
    ensures LinesOnPage(page, Lines(tables)) && PageMeans(page, Lines(tables), r)
  {
    hide Judge, Position, PageMeans, Lines, PutPart;
    LinesAreOnPage(page, tables);
    var parts, malformed, skipped := [], 0, [];
    ghost var seen: seq<Verdict> := [];
    NothingMeans(page);
    NoLines();
    for i := 0 to |tables|
      invariant seen == Verdicts(page, tables[..i]) && Collect(seen) == Parsed(parts, malformed, skipped)
      invariant LinesOnPage(page, Lines(tables[..i]))
      invariant PageMeans(page, Lines(tables[..i]), Parsed(parts, malformed, skipped))
    {
      var t := tables[i];
      assert tables[..i + 1][..i] == tables[..i];
      ghost var before := seen;
      LinesOfTable(tables, i);
      for j := 0 to |t.rows|
        invariant seen == before + RowVerdicts(page, t.labels, t.rows[..j])
        invariant Collect(seen) == Parsed(parts, malformed, skipped)
        invariant LinesOnPage(page, LinesUpTo(tables, i, j))
        invariant PageMeans(page, LinesUpTo(tables, i, j), Parsed(parts, malformed, skipped))
      {
        assert t.rows[..j + 1][..j] == t.rows[..j];
        var v := Judge(page, t.labels, t.rows[j]);
        LinesNext(tables, i, j);
        MeansNext(page, LinesUpTo(tables, i, j), Line(t.labels, t.rows[j]), Parsed(parts, malformed, skipped));
        CollectNext(seen, v);
        seen := seen + [v];
        match v {
          case Ignored =>
          case Malformed => malformed := malformed + 1;
          case Nameless(record) => skipped := skipped + [record];
          case Listed(record) =>
            var at := Position(parts, KeyOf(record));
            PutIs(parts, record);
            parts := if at < |parts| then parts[at := record] else parts + [record];
        }
      }
      assert t.rows[..|t.rows|] == t.rows;
    }
    assert tables[..|tables|] == tables;
    return Parsed(parts, malformed, skipped);
  }

  lemma NoLines()
    ensures Lines([]) == []
  {
  }

  lemma PutIs(parts: seq<PartRecord>, p: PartRecord)
    ensures PutPart(parts, p)
         == var at := Position(parts, KeyOf(p)); if at < |parts| then parts[at := p] else parts + [p]
  {
  }
}
