/**
What the page of a model says, written on its rows and links: which vehicles it lists, and how many
of its links are at fault.
*/
module VehicleMeaning {
  import opened Links
  import opened LinkMeaning
  import opened GroupReplay
  import opened CatalogParse

  ghost predicate RowsOnPage(page: seq<Element>, rows: seq<SpecRow>) {
    forall n :: 0 <= n < |rows| ==> RowOnPage(page, rows[n])
  }

  /** The address of link `k` of a row. */
  function UrlAt(page: seq<Element>, links: seq<nat>, k: int): Link
    requires (forall i :: i in links ==> i < |page|) && 0 <= k < |links|
  {
    assert links[k] in links;
    page[links[k]].link
  }

  ghost predicate VehicleLink(brand: string, link: Link) { link.endpoint == VehiclePage && OfBrand(link, brand) }

  /** Link `k` leads to a vehicle of the brand. */
  ghost predicate LeadsAt(brand: string, page: seq<Element>, links: seq<nat>, k: int)
    requires forall i :: i in links ==> i < |page|
  {
    0 <= k < |links| && VehicleLink(brand, UrlAt(page, links, k))
  }

  ghost predicate NoneBefore(brand: string, page: seq<Element>, links: seq<nat>, k: int)
    requires forall i :: i in links ==> i < |page|
  {
    forall j :: j < k ==> !LeadsAt(brand, page, links, j)
  }

  ghost predicate FirstLink(brand: string, page: seq<Element>, links: seq<nat>, link: Link)
    requires forall i :: i in links ==> i < |page|
  {
    exists k :: LeadsAt(brand, page, links, k) && UrlAt(page, links, k) == link && NoneBefore(brand, page, links, k)
  }

  predicate Specifies(row: SpecRow) { exists column :: column in row.columns && column != "" }

  /** The row lists a vehicle: it leads to one and specifies something. */
  ghost predicate Counts(brand: string, page: seq<Element>, row: SpecRow)
    requires RowOnPage(page, row)
  {
    Specifies(row) && exists k :: LeadsAt(brand, page, row.links, k)
  }

  ghost predicate CountsAt(brand: string, page: seq<Element>, rows: seq<SpecRow>, n: int)
    requires RowsOnPage(page, rows)
  {
    0 <= n < |rows| && Counts(brand, page, rows[n])
  }

  /** An earlier row lists the same columns. */
  ghost predicate ListedBefore(brand: string, page: seq<Element>, rows: seq<SpecRow>, n: int)
    requires RowsOnPage(page, rows) && 0 <= n < |rows|
  {
    exists m :: m < n && CountsAt(brand, page, rows, m) && rows[m].columns == rows[n].columns
  }

  ghost predicate VehicleAt(brand: string, page: seq<Element>, rows: seq<SpecRow>, n: int, v: VehicleRecord)
    requires RowsOnPage(page, rows)
  {
    CountsAt(brand, page, rows, n) && v.columns == rows[n].columns && FirstLink(brand, page, rows[n].links, v.link)
  }

  /** One record for each different specification, from the first row that lists it, in page order. */
  ghost predicate VehiclesListed(brand: string, page: seq<Element>, rows: seq<SpecRow>, records: seq<VehicleRecord>,
                                 places: seq<int>)
    requires RowsOnPage(page, rows)
  {
    && Increasing(places) && |places| == |records|
    && (forall i :: 0 <= i < |places| ==> VehicleAt(brand, page, rows, places[i], records[i]))
    && (forall n :: n in places <==> CountsAt(brand, page, rows, n) && !ListedBefore(brand, page, rows, n))
  }

  // ---------------------------------------------------------------- faults

  /** The row lists a vehicle under a link that leads where `link` leads. */
  ghost predicate Carries(brand: string, page: seq<Element>, row: SpecRow, link: Link)
    requires RowOnPage(page, row)
  {
    && Counts(brand, page, row)
    && exists k ::
         LeadsAt(brand, page, row.links, k) && SameTarget(link, UrlAt(page, row.links, k), ["c", "ssd", "vid"], [])
  }

  ghost predicate CarriedAt(brand: string, page: seq<Element>, rows: seq<SpecRow>, n: int, link: Link)
    requires RowsOnPage(page, rows)
  {
    0 <= n < |rows| && Carries(brand, page, rows[n], link)
  }

  ghost predicate CarriedBefore(brand: string, page: seq<Element>, rows: seq<SpecRow>, n: int, link: Link)
    requires RowsOnPage(page, rows)
  {
    exists m :: m < n && CarriedAt(brand, page, rows, m, link)
  }

  /** The first row that carries the link specifies something other than row `n`. */
  ghost predicate Contradicts(brand: string, page: seq<Element>, rows: seq<SpecRow>, n: int, link: Link)
    requires RowsOnPage(page, rows) && 0 <= n < |rows|
  {
    exists m :: m < n && CarriedAt(brand, page, rows, m, link) && !CarriedBefore(brand, page, rows, m, link)
      && rows[m].columns != rows[n].columns
  }

  /** The links of row `n` that an earlier row has claimed for another specification. */
  ghost function Conflicting(brand: string, page: seq<Element>, rows: seq<SpecRow>, n: int): set<Link>
    requires RowsOnPage(page, rows) && 0 <= n < |rows|
  {
    set i | i in rows[n].links && Counts(brand, page, rows[n]) && VehicleLink(brand, page[i].link)
      && Contradicts(brand, page, rows, n, page[i].link) :: page[i].link
  }

  /** The vehicle links of the page whose target no row carries. */
  ghost function LostVehicles(brand: string, page: seq<Element>, rows: seq<SpecRow>): set<Link>
    requires RowsOnPage(page, rows)
  {
    set e | e in page && e.text.Some? && VehicleLink(brand, e.link)
      && !CarriedBefore(brand, page, rows, |rows|, e.link) :: e.link
  }

  function Sum(counts: seq<nat>): nat { if counts == [] then 0 else Sum(counts[..|counts| - 1]) + counts[|counts| - 1] }

  /** `counts` holds for every row the number of targets in conflict. */
  ghost predicate ConflictsCounted(brand: string, page: seq<Element>, rows: seq<SpecRow>, counts: seq<nat>)
    requires RowsOnPage(page, rows)
  {
    |counts| == |rows| && forall n :: 0 <= n < |rows| ==>
      CountsTargets(counts[n], Conflicting(brand, page, rows, n), ["c", "ssd", "vid"], [])
  }

  // ---------------------------------------------------------------- one row

  lemma VehicleLinkIff(brand: string, link: Link)
    ensures VehicleLink(brand, link) <==> IsVehicleLink(brand, link)
  {
    OfBrandIff(link, brand);
  }

  lemma {:induction false} FirstMatchingIs(brand: string, page: seq<Element>, links: seq<nat>)
    requires forall i :: i in links ==> i < |page|
    ensures var r := FirstMatching(brand, page, links);
      && (r.None? <==> NoneBefore(brand, page, links, |links|))
      && (r.Some? ==> FirstLink(brand, page, links, r.value))
  {
    hide VehicleLink, IsVehicleLink;
    if links != [] {
      assert links[0] in links && forall i :: i in links[1..] ==> i in links;
      VehicleLinkIff(brand, UrlAt(page, links, 0));
      FirstMatchingIs(brand, page, links[1..]);
      var rest, r := links[1..], FirstMatching(brand, page, links[1..]);
      forall k | 1 <= k ensures LeadsAt(brand, page, links, k) <==> LeadsAt(brand, page, rest, k - 1) {
        assert k < |links| ==> links[k] == rest[k - 1];
      }
      if LeadsAt(brand, page, links, 0) {
        assert NoneBefore(brand, page, links, 0);
      } else if r.Some? {
        var k :| LeadsAt(brand, page, rest, k) && UrlAt(page, rest, k) == r.value && NoneBefore(brand, page, rest, k);
        assert LeadsAt(brand, page, links, k + 1) && UrlAt(page, links, k + 1) == r.value;
        assert NoneBefore(brand, page, links, k + 1) by { NoneEarlier(brand, page, links, k); }
      } else {
        assert NoneBefore(brand, page, links, |links|) by { NoneEarlier(brand, page, links, |rest|); }
      }
    }
  }

  lemma NoneEarlier(brand: string, page: seq<Element>, links: seq<nat>, k: int)
    requires links != [] && (forall i :: i in links ==> i < |page|) && !LeadsAt(brand, page, links, 0)
    requires (forall i :: i in links[1..] ==> i < |page|) && NoneBefore(brand, page, links[1..], k)
    ensures NoneBefore(brand, page, links, k + 1)
  {
    hide VehicleLink;
    forall j | j < k + 1 ensures !LeadsAt(brand, page, links, j) {
      if 1 <= j < |links| { assert links[j] == links[1..][j - 1]; }
      assert 1 <= j ==> !LeadsAt(brand, page, links[1..], j - 1);
    }
  }

  lemma RowMeans(brand: string, page: seq<Element>, row: SpecRow)
    requires RowOnPage(page, row)
    ensures Counts(brand, page, row) <==> RowCounts(brand, page, row)
    ensures RowCounts(brand, page, row) ==>
      FirstLink(brand, page, row.links, FirstMatching(brand, page, row.links).value)
  {
    hide VehicleLink, FirstMatching;
    FirstMatchingIs(brand, page, row.links);
  }

  // ---------------------------------------------------------------- the records

  /** Every row that lists a vehicle, in page order. */
  ghost predicate AllListed(brand: string, page: seq<Element>, rows: seq<SpecRow>, records: seq<VehicleRecord>,
                            places: seq<int>)
    requires RowsOnPage(page, rows)
  {
    && Increasing(places) && |places| == |records|
    && (forall i :: 0 <= i < |places| ==> VehicleAt(brand, page, rows, places[i], records[i]))
    && (forall n :: n in places <==> CountsAt(brand, page, rows, n))
  }

  lemma AllListedNext(brand: string, page: seq<Element>, rows: seq<SpecRow>, row: SpecRow, records: seq<VehicleRecord>,
                      places: seq<int>)
    requires RowsOnPage(page, rows + [row]) && RowsOnPage(page, rows) && RowOnPage(page, row)
    requires AllListed(brand, page, rows, records, places)
    ensures RowCounts(brand, page, row) ==>
      AllListed(brand, page, rows + [row],
                records + [VehicleRecord(row.columns, FirstMatching(brand, page, row.links).value)], places + [|rows|])
    ensures !RowCounts(brand, page, row) ==> AllListed(brand, page, rows + [row], records, places)
  {
    hide Counts, FirstLink, RowCounts, RowOnPage;
    var all := rows + [row];
    assert all[|rows|] == row && forall n :: 0 <= n < |rows| ==> all[n] == rows[n];
    RowMeans(brand, page, row);
    forall n ensures CountsAt(brand, page, all, n)
                <==> CountsAt(brand, page, rows, n) || (n == |rows| && RowCounts(brand, page, row)) {}
    forall i | 0 <= i < |places|
      ensures places[i] < |rows| && VehicleAt(brand, page, all, places[i], records[i])
    {
      assert VehicleAt(brand, page, rows, places[i], records[i]);
    }
    var next := places + [|rows|];
    forall n ensures n in next <==> n in places || n == |rows| { assert next[|places|] == |rows|; }
  }

  /** The records kept are those whose columns are new. */
  lemma {:induction false} DistinctPicks(records: seq<VehicleRecord>) returns (picks: seq<int>)
    ensures Increasing(picks) && |picks| == |Distinct(records)|
    ensures forall i :: 0 <= i < |picks| ==> 0 <= picks[i] < |records| && Distinct(records)[i] == records[picks[i]]
    ensures forall q :: q in picks <==> NewColumns(records, q)
  {
    if records == [] {
      picks := [];
    } else {
      var n := |records| - 1;
      var before := DistinctPicks(records[..n]);
      ColumnsAre(records, n);
      picks := before + if NewColumns(records, n) then [n] else [];
      forall q ensures q in picks <==> NewColumns(records, q) {
        assert q != n ==> (NewColumns(records, q) <==> NewColumns(records[..n], q));
      }
    }
  }

  ghost predicate NewColumns(records: seq<VehicleRecord>, q: int) {
    0 <= q < |records| && forall m :: 0 <= m < q ==> records[m].columns != records[q].columns
  }

  lemma ColumnsAre(records: seq<VehicleRecord>, n: nat)
    requires n < |records|
    ensures records[n].columns in Columns(records[..n]) <==> !NewColumns(records, n)
  {
    if records[n].columns in Columns(records[..n]) {
      var r :| r in records[..n] && r.columns == records[n].columns;
      var m :| 0 <= m < n && records[m] == r;
    }
    if !NewColumns(records, n) {
      var m :| 0 <= m < n && records[m].columns == records[n].columns;
      assert records[..n][m] == records[m] && records[m] in records[..n];
    }
  }

  lemma PlacesOf(places: seq<int>, picks: seq<int>) returns (chosen: seq<int>)
    requires Increasing(places) && Increasing(picks) && forall i :: 0 <= i < |picks| ==> 0 <= picks[i] < |places|
    ensures Increasing(chosen) && |chosen| == |picks|
    ensures forall i :: 0 <= i < |picks| ==> chosen[i] == places[picks[i]]
  {
    chosen := seq(|picks|, i requires 0 <= i < |picks| => places[picks[i]]);
  }

  /** New columns in the list are new columns on the page. */
  lemma NewOnPage(brand: string, page: seq<Element>, rows: seq<SpecRow>, records: seq<VehicleRecord>, places: seq<int>,
                  q: int)
    requires RowsOnPage(page, rows) && AllListed(brand, page, rows, records, places) && 0 <= q < |places|
    ensures CountsAt(brand, page, rows, places[q])
    ensures NewColumns(records, q) <==> !ListedBefore(brand, page, rows, places[q])
  {
    hide Counts, FirstLink;
    assert VehicleAt(brand, page, rows, places[q], records[q]);
    if !NewColumns(records, q) {
      var m :| 0 <= m < q && records[m].columns == records[q].columns;
      assert VehicleAt(brand, page, rows, places[m], records[m]);
    }
    if ListedBefore(brand, page, rows, places[q]) {
      var m :| m < places[q] && CountsAt(brand, page, rows, m) && rows[m].columns == rows[places[q]].columns;
      assert m in places;
      var k :| 0 <= k < |places| && places[k] == m;
      assert VehicleAt(brand, page, rows, places[k], records[k]);
      assert k < q;
    }
  }

  lemma DistinctIsListed(brand: string, page: seq<Element>, rows: seq<SpecRow>, records: seq<VehicleRecord>,
                         places: seq<int>) returns (chosen: seq<int>)
    requires RowsOnPage(page, rows) && AllListed(brand, page, rows, records, places)
    ensures VehiclesListed(brand, page, rows, Distinct(records), chosen)
  {
    hide Counts, VehicleAt, ListedBefore, NewColumns, Distinct;
    var picks := DistinctPicks(records);
    chosen := PlacesOf(places, picks);
    forall q | 0 <= q < |places|
      ensures CountsAt(brand, page, rows, places[q])
      ensures NewColumns(records, q) <==> !ListedBefore(brand, page, rows, places[q])
    {
      NewOnPage(brand, page, rows, records, places, q);
    }
    forall n ensures n in chosen <==> CountsAt(brand, page, rows, n) && !ListedBefore(brand, page, rows, n) {
      if n in chosen {
        var i :| 0 <= i < |chosen| && chosen[i] == n;
        assert picks[i] in picks;
      }
      if CountsAt(brand, page, rows, n) && !ListedBefore(brand, page, rows, n) {
        assert n in places;
        var q :| 0 <= q < |places| && places[q] == n;
        assert q in picks;
        var i :| 0 <= i < |picks| && picks[i] == q;
        assert chosen[i] == n;
      }
    }
  }

  // ---------------------------------------------------------------- the specifications claimed

  ghost predicate CarriedId(brand: string, page: seq<Element>, rows: seq<SpecRow>, n: int, id: Identity)
    requires RowsOnPage(page, rows)
  {
    0 <= n < |rows| && RowCounts(brand, page, rows[n]) && id in RowIds(brand, page, rows[n])
  }

  ghost predicate FirstId(brand: string, page: seq<Element>, rows: seq<SpecRow>, m: int, id: Identity)
    requires RowsOnPage(page, rows)
  {
    CarriedId(brand, page, rows, m, id) && forall j :: j < m ==> !CarriedId(brand, page, rows, j, id)
  }

  lemma VehicleKeys()
    ensures VEHICLE_KEYS == ["c", "ssd", "vid"]
  {
  }

  lemma CarriesIff(brand: string, page: seq<Element>, row: SpecRow, link: Link)
    requires RowOnPage(page, row)
    ensures Carries(brand, page, row, link)
       <==> RowCounts(brand, page, row) && VehicleIdentity(link) in RowIds(brand, page, row)
  {
    hide Counts, RowCounts, CandidateIdentity, SameTarget, VehicleLink, IsVehicleLink;
    RowMeans(brand, page, row);
    VehicleKeys();
    forall other ensures VehicleLink(brand, other) <==> IsVehicleLink(brand, other) { VehicleLinkIff(brand, other); }
    forall other
      ensures SameTarget(link, other, ["c", "ssd", "vid"], []) <==> VehicleIdentity(link) == VehicleIdentity(other)
    {
      SameTargetIff(link, other, ["c", "ssd", "vid"], []);
    }
    if VehicleIdentity(link) in RowIds(brand, page, row) {
      var i :| i in row.links && IsVehicleLink(brand, page[i].link)
        && VehicleIdentity(page[i].link) == VehicleIdentity(link);
      var k :| 0 <= k < |row.links| && row.links[k] == i;
      assert LeadsAt(brand, page, row.links, k) && UrlAt(page, row.links, k) == page[i].link;
    }
    if k :| LeadsAt(brand, page, row.links, k) && SameTarget(link, UrlAt(page, row.links, k), ["c", "ssd", "vid"], []) {
      assert row.links[k] in row.links;
    }
  }

  lemma CarriedIff(brand: string, page: seq<Element>, rows: seq<SpecRow>, n: int, link: Link)
    requires RowsOnPage(page, rows)
    ensures CarriedAt(brand, page, rows, n, link) <==> CarriedId(brand, page, rows, n, VehicleIdentity(link))
  {
    hide Carries, RowCounts, RowIds, VehicleIdentity;
    if 0 <= n < |rows| { CarriesIff(brand, page, rows[n], link); }
  }

  lemma ContradictsIff(brand: string, page: seq<Element>, rows: seq<SpecRow>, n: int, link: Link)
    requires RowsOnPage(page, rows) && 0 <= n < |rows|
    ensures Contradicts(brand, page, rows, n, link) <==> exists m ::
      m < n && FirstId(brand, page, rows, m, VehicleIdentity(link)) && rows[m].columns != rows[n].columns
    ensures CarriedBefore(brand, page, rows, n, link) <==> exists m ::
      m < n && CarriedId(brand, page, rows, m, VehicleIdentity(link))
  {
    hide Carries, RowCounts, RowIds, VehicleIdentity, CarriedAt, CarriedId;
    forall k
      ensures CarriedAt(brand, page, rows, k, link) <==> CarriedId(brand, page, rows, k, VehicleIdentity(link))
      ensures CarriedAt(brand, page, rows, k, link) ==> 0 <= k < |rows|
    {
      CarriedIff(brand, page, rows, k, link);
      CarriedInside(brand, page, rows, k, link);
    }
  }

  lemma CarriedInside(brand: string, page: seq<Element>, rows: seq<SpecRow>, k: int, link: Link)
    requires RowsOnPage(page, rows)
    ensures CarriedAt(brand, page, rows, k, link) ==> 0 <= k < |rows|
  {
  }

  /** The dictionary holds for every identity the columns of the first row that carries it. */
  ghost predicate SpecsMean(brand: string, page: seq<Element>, rows: seq<SpecRow>, specs: map<Identity, seq<string>>)
    requires RowsOnPage(page, rows)
  {
    && (forall n, id :: CarriedId(brand, page, rows, n, id) ==> id in specs)
    && (forall id :: id in specs ==> exists m ::
          FirstId(brand, page, rows, m, id) && specs[id] == rows[m].columns)
  }

  // ---------------------------------------------------------------- one more row

  lemma CarriedNext(brand: string, page: seq<Element>, rows: seq<SpecRow>, row: SpecRow)
    requires RowsOnPage(page, rows + [row]) && RowsOnPage(page, rows) && RowOnPage(page, row)
    ensures forall n, id :: n < |rows| ==>
      (CarriedId(brand, page, rows + [row], n, id) <==> CarriedId(brand, page, rows, n, id))
    ensures forall id :: CarriedId(brand, page, rows + [row], |rows|, id) <==>
      RowCounts(brand, page, row) && id in RowIds(brand, page, row)
    ensures forall m, id :: m < |rows| ==>
      (FirstId(brand, page, rows + [row], m, id) <==> FirstId(brand, page, rows, m, id))
  {
    hide RowCounts, RowIds, RowOnPage;
    var all := rows + [row];
    assert all[|rows|] == row && forall n :: 0 <= n < |rows| ==> all[n] == rows[n];
  }

  /** The dictionary knows the first row of an identity. */
  lemma FirstIsKnown(brand: string, page: seq<Element>, rows: seq<SpecRow>, specs: map<Identity, seq<string>>,
                     m: int, id: Identity)
    requires RowsOnPage(page, rows) && SpecsMean(brand, page, rows, specs) && FirstId(brand, page, rows, m, id)
    ensures 0 <= m < |rows| && id in specs && specs[id] == rows[m].columns
  {
    hide RowCounts, RowIds;
    var k :| FirstId(brand, page, rows, k, id) && specs[id] == rows[k].columns;
    assert k == m;
  }

  /** A row contradicts the dictionary where it contradicts an earlier row. */
  lemma ContradictsKnown(brand: string, page: seq<Element>, rows: seq<SpecRow>, row: SpecRow,
                         specs: map<Identity, seq<string>>, link: Link)
    requires RowsOnPage(page, rows + [row]) && RowsOnPage(page, rows) && RowOnPage(page, row)
    requires SpecsMean(brand, page, rows, specs)
    ensures Contradicts(brand, page, rows + [row], |rows|, link)
       <==> VehicleIdentity(link) in specs && specs[VehicleIdentity(link)] != row.columns
  {
    hide VehicleIdentity, RowCounts, RowIds, Contradicts, RowOnPage;
    var all, n, id := rows + [row], |rows|, VehicleIdentity(link);
    assert all[n] == row && forall k :: 0 <= k < n ==> all[k] == rows[k];
    ContradictsIff(brand, page, all, n, link);
    CarriedNext(brand, page, rows, row);
    if m :| m < n && FirstId(brand, page, all, m, id) && all[m].columns != all[n].columns {
      FirstIsKnown(brand, page, rows, specs, m, id);
    }
    if id in specs && specs[id] != row.columns {
      var m :| FirstId(brand, page, rows, m, id) && specs[id] == rows[m].columns;
      FirstIsKnown(brand, page, rows, specs, m, id);
      assert FirstId(brand, page, all, m, id);
    }
  }

  lemma ClashesAre(brand: string, page: seq<Element>, rows: seq<SpecRow>, row: SpecRow,
                   specs: map<Identity, seq<string>>)
    requires RowsOnPage(page, rows + [row]) && RowsOnPage(page, rows) && RowOnPage(page, row)
    requires SpecsMean(brand, page, rows, specs)
    ensures Identities(Conflicting(brand, page, rows + [row], |rows|), ["c", "ssd", "vid"], [])
         == if RowCounts(brand, page, row) then Clashing(specs, RowIds(brand, page, row), row.columns) else {}
  {
    hide SpecsMean, Counts, RowCounts, CandidateIdentity, VehicleLink, IsVehicleLink, Contradicts;
    var all, n := rows + [row], |rows|;
    assert all[n] == row;
    RowMeans(brand, page, row);
    VehicleKeys();
    forall link ensures VehicleLink(brand, link) <==> IsVehicleLink(brand, link) { VehicleLinkIff(brand, link); }
    forall link ensures Contradicts(brand, page, all, n, link)
                   <==> VehicleIdentity(link) in specs && specs[VehicleIdentity(link)] != row.columns {
      ContradictsKnown(brand, page, rows, row, specs, link);
    }
  }

  lemma ConflictingStays(brand: string, page: seq<Element>, rows: seq<SpecRow>, row: SpecRow, n: nat)
    requires RowsOnPage(page, rows + [row]) && RowsOnPage(page, rows) && RowOnPage(page, row) && n < |rows|
    ensures Conflicting(brand, page, rows + [row], n) == Conflicting(brand, page, rows, n)
  {
    hide Counts, VehicleLink, Contradicts, VehicleIdentity, CarriedId, FirstId, RowOnPage;
    var all := rows + [row];
    assert forall k :: 0 <= k < |rows| ==> all[k] == rows[k];
    CarriedNext(brand, page, rows, row);
    forall link ensures Contradicts(brand, page, all, n, link) <==> Contradicts(brand, page, rows, n, link) {
      ContradictsIff(brand, page, all, n, link);
      ContradictsIff(brand, page, rows, n, link);
    }
  }

  lemma SpecsNext(brand: string, page: seq<Element>, rows: seq<SpecRow>, row: SpecRow,
                  specs: map<Identity, seq<string>>)
    requires RowsOnPage(page, rows + [row]) && RowsOnPage(page, rows) && RowOnPage(page, row)
    requires SpecsMean(brand, page, rows, specs)
    ensures SpecsMean(brand, page, rows + [row],
                      if RowCounts(brand, page, row)
                      then Claim(specs, RowIds(brand, page, row), row.columns)
                      else specs)
  {
    hide RowCounts, RowIds, RowOnPage;
    var all, n, ids := rows + [row], |rows|, RowIds(brand, page, row);
    assert all[n] == row && forall k :: 0 <= k < n ==> all[k] == rows[k];
    CarriedNext(brand, page, rows, row);
    var next := if RowCounts(brand, page, row) then Claim(specs, ids, row.columns) else specs;
    forall id | id in next ensures exists m :: FirstId(brand, page, all, m, id) && next[id] == all[m].columns {
      if id in specs {
        var m :| FirstId(brand, page, rows, m, id) && specs[id] == rows[m].columns;
        FirstIsKnown(brand, page, rows, specs, m, id);
        assert FirstId(brand, page, all, m, id);
      } else {
        NewlyCarried(brand, page, rows, row, specs, id);
      }
    }
  }

  lemma NewlyCarried(brand: string, page: seq<Element>, rows: seq<SpecRow>, row: SpecRow,
                     specs: map<Identity, seq<string>>, id: Identity)
    requires RowsOnPage(page, rows + [row]) && RowsOnPage(page, rows) && RowOnPage(page, row)
    requires SpecsMean(brand, page, rows, specs) && id !in specs
    requires RowCounts(brand, page, row) && id in RowIds(brand, page, row)
    ensures FirstId(brand, page, rows + [row], |rows|, id)
  {
    hide CarriedId, RowCounts, RowIds, RowOnPage;
    CarriedNext(brand, page, rows, row);
  }

  // ---------------------------------------------------------------- the whole page

  ghost predicate RecordsMean(brand: string, page: seq<Element>, rows: seq<SpecRow>, records: seq<VehicleRecord>)
    requires RowsOnPage(page, rows)
  {
    exists places: seq<int> :: AllListed(brand, page, rows, records, places)
  }

  ghost predicate ConflictsMean(brand: string, page: seq<Element>, rows: seq<SpecRow>, conflicts: nat)
    requires RowsOnPage(page, rows)
  {
    exists counts: seq<nat> :: ConflictsCounted(brand, page, rows, counts) && Sum(counts) == conflicts
  }

  ghost predicate LoopMeans(brand: string, page: seq<Element>, rows: seq<SpecRow>, st: Vehicles)
    requires RowsOnPage(page, rows)
  {
    && RecordsMean(brand, page, rows, st.records) && SpecsMean(brand, page, rows, st.specs)
    && ConflictsMean(brand, page, rows, st.conflicts)
  }

  lemma ConflictsNext(brand: string, page: seq<Element>, rows: seq<SpecRow>, row: SpecRow, conflicts: nat,
                      specs: map<Identity, seq<string>>)
    requires RowsOnPage(page, rows + [row]) && RowsOnPage(page, rows) && RowOnPage(page, row)
    requires ConflictsMean(brand, page, rows, conflicts) && SpecsMean(brand, page, rows, specs)
    ensures ConflictsMean(brand, page, rows + [row],
      conflicts + if RowCounts(brand, page, row) then |Clashing(specs, RowIds(brand, page, row), row.columns)| else 0)
  {
    hide SpecsMean, RowCounts, RowIds, Clashing, Conflicting, CountsTargets, Identities, RowOnPage;
    var all, keys := rows + [row], ["c", "ssd", "vid"];
    var none: seq<string> := [];
    var counts: seq<nat> :| ConflictsCounted(brand, page, rows, counts) && Sum(counts) == conflicts;
    ClashesAre(brand, page, rows, row, specs);
    var last := Conflicting(brand, page, all, |rows|);
    TargetsAreCounted(last, keys, none);
    var next := counts + [|Identities(last, keys, none)|];
    assert next[..|counts|] == counts;
    forall n | 0 <= n < |all| ensures CountsTargets(next[n], Conflicting(brand, page, all, n), keys, none) {
      if n < |rows| { ConflictingStays(brand, page, rows, row, n); }
    }
    assert ConflictsCounted(brand, page, all, next);
  }

  lemma LoopNext(brand: string, page: seq<Element>, rows: seq<SpecRow>, row: SpecRow, st: Vehicles)
    requires RowsOnPage(page, rows + [row]) && RowsOnPage(page, rows) && RowOnPage(page, row)
    requires LoopMeans(brand, page, rows, st)
    ensures LoopMeans(brand, page, rows + [row], VehicleStep(brand, page, st, row))
  {
    hide RowCounts, RowIds, Clashing, Claim, AllListed, SpecsMean, ConflictsMean, FirstMatching, RowOnPage;
    var places: seq<int> :| AllListed(brand, page, rows, st.records, places);
    AllListedNext(brand, page, rows, row, st.records, places);
    SpecsNext(brand, page, rows, row, st.specs);
    ConflictsNext(brand, page, rows, row, st.conflicts, st.specs);
    CountedHasLink(brand, page, row);
  }

  lemma CountedHasLink(brand: string, page: seq<Element>, row: SpecRow)
    requires RowOnPage(page, row)
    ensures RowCounts(brand, page, row) ==> FirstMatching(brand, page, row.links).Some?
  {
  }

  lemma NothingLoops(brand: string, page: seq<Element>)
    ensures LoopMeans(brand, page, [], NO_VEHICLES)
  {
    var none: seq<int> := [];
    var zero: seq<nat> := [];
    assert AllListed(brand, page, [], [], none);
    assert ConflictsCounted(brand, page, [], zero) && Sum(zero) == 0;
  }

  lemma {:induction false} VehiclesLoop(brand: string, page: seq<Element>, rows: seq<SpecRow>)
    requires forall row :: row in rows ==> RowOnPage(page, row)
    ensures RowsOnPage(page, rows) && LoopMeans(brand, page, rows, RunVehicles(brand, page, rows))
  {
    hide LoopMeans, VehicleStep, RowOnPage;
    forall n | 0 <= n < |rows| ensures RowOnPage(page, rows[n]) { assert rows[n] in rows; }
    if rows == [] {
      NothingLoops(brand, page);
    } else {
      var before, row := rows[..|rows| - 1], rows[|rows| - 1];
      VehiclesLoop(brand, page, before);
      assert before + [row] == rows;
      LoopNext(brand, page, before, row, RunVehicles(brand, page, before));
    }
  }

  lemma LostVehiclesAre(brand: string, page: seq<Element>, rows: seq<SpecRow>, specs: map<Identity, seq<string>>)
    requires RowsOnPage(page, rows) && SpecsMean(brand, page, rows, specs)
    ensures VehicleCandidates(brand, page) - specs.Keys
         == Identities(LostVehicles(brand, page, rows), ["c", "ssd", "vid"], [])
  {
    hide VehicleLink, IsVehicleLink, CandidateIdentity, RowCounts, RowIds, CarriedBefore;
    VehicleKeys();
    forall link ensures VehicleLink(brand, link) <==> IsVehicleLink(brand, link) { VehicleLinkIff(brand, link); }
    forall link ensures CarriedBefore(brand, page, rows, |rows|, link) <==> VehicleIdentity(link) in specs {
      CarriedBeforeIff(brand, page, rows, link);
    }
  }

  lemma CarriedBeforeIff(brand: string, page: seq<Element>, rows: seq<SpecRow>, link: Link)
    requires RowsOnPage(page, rows)
    ensures CarriedBefore(brand, page, rows, |rows|, link)
       <==> exists m :: CarriedId(brand, page, rows, m, VehicleIdentity(link))
  {
    hide Carries, RowCounts, RowIds, VehicleIdentity;
    forall k ensures CarriedAt(brand, page, rows, k, link) <==> CarriedId(brand, page, rows, k, VehicleIdentity(link)) {
      CarriedIff(brand, page, rows, k, link);
    }
  }

  /** Vehicles: one for each specification, from the first row that lists it; faults are, row by row, the
      targets an earlier row has claimed for another specification, and the targets that no row carries. */
  lemma VehiclesMean(brand: string, page: seq<Element>, rows: seq<SpecRow>) returns (counts: seq<nat>, lost: nat)
    requires forall row :: row in rows ==> RowOnPage(page, row)
    ensures RowsOnPage(page, rows)
    ensures var st := RunVehicles(brand, page, rows);
      && (exists places: seq<int> :: VehiclesListed(brand, page, rows, Distinct(st.records), places))
      && VehiclesMalformed(brand, page, st) == Sum(counts) + lost
    ensures ConflictsCounted(brand, page, rows, counts)
    ensures CountsTargets(lost, LostVehicles(brand, page, rows), ["c", "ssd", "vid"], [])
  {
    hide AllListed, VehiclesListed, LostVehicles, CountsTargets, Identities, SpecsMean, ConflictsCounted, RowOnPage,
         VehicleCandidates, Distinct;
    var st := RunVehicles(brand, page, rows);
    VehiclesLoop(brand, page, rows);
    var places: seq<int> :| AllListed(brand, page, rows, st.records, places);
    var chosen := DistinctIsListed(brand, page, rows, st.records, places);
    counts :| ConflictsCounted(brand, page, rows, counts) && Sum(counts) == st.conflicts;
    LostVehiclesAre(brand, page, rows, st.specs);
    TargetsAreCounted(LostVehicles(brand, page, rows), ["c", "ssd", "vid"], []);
    lost := |VehicleCandidates(brand, page) - st.specs.Keys|;
  }
}
