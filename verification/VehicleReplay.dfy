/**
Sanitised replay of the vehicle parser.  Links that carry no request value are told apart by their
exact spelling, which sanitising removes; the replay is faithful exactly when no two of them that
stand for different specifications become equal.
*/
module VehicleReplay {
  import opened Wrappers
  import opened Links
  import opened Sanitizer
  import opened GroupReplay
  import opened CatalogParse
  import opened CatalogReplay

  ghost predicate OnPage(page: seq<Element>, rows: seq<SpecRow>) { forall row :: row in rows ==> RowOnPage(page, row) }

  /** A row that the parser uses, and a candidate identity it links to. */
  ghost predicate Carries(brand: string, page: seq<Element>, rows: seq<SpecRow>, row: SpecRow, id: Identity)
    requires OnPage(page, rows)
  {
    row in rows && RowCounts(brand, page, row) && id in RowIds(brand, page, row)
  }

  /** No candidate identity carries two specifications. */
  ghost predicate RowsAgree(brand: string, page: seq<Element>, rows: seq<SpecRow>)
    requires OnPage(page, rows)
  {
    forall x, y, id :: Carries(brand, page, rows, x, id) && Carries(brand, page, rows, y, id) ==> x.columns == y.columns
  }

  // ---------------------------------------------------------------- the dictionary of specifications

  ghost predicate Claimed(brand: string, page: seq<Element>, rows: seq<SpecRow>, specs: map<Identity, seq<string>>)
    requires OnPage(page, rows)
  {
    && (forall row, id :: Carries(brand, page, rows, row, id) ==> id in specs)
    && (forall id :: id in specs ==> exists row :: Carries(brand, page, rows, row, id) && row.columns == specs[id])
  }

  lemma CarriesNext(brand: string, page: seq<Element>, rows: seq<SpecRow>, last: SpecRow, row: SpecRow, id: Identity)
    requires OnPage(page, rows + [last]) && OnPage(page, rows) && RowOnPage(page, last)
    ensures Carries(brand, page, rows + [last], row, id)
       <==> || Carries(brand, page, rows, row, id)
            || (row == last && RowCounts(brand, page, last) && id in RowIds(brand, page, last))
  {
    hide RowCounts, RowIds;
    assert row in rows + [last] <==> row in rows || row == last;
  }

  lemma ClaimKeeps(brand: string, page: seq<Element>, rows: seq<SpecRow>, last: SpecRow,
                   specs: map<Identity, seq<string>>)
    requires OnPage(page, rows + [last]) && OnPage(page, rows) && Claimed(brand, page, rows, specs)
    requires RowOnPage(page, last) && RowCounts(brand, page, last)
    ensures Claimed(brand, page, rows + [last], Claim(specs, RowIds(brand, page, last), last.columns))
  {
    hide RowCounts, RowIds, Carries;
    var ids := RowIds(brand, page, last);
    var next := Claim(specs, ids, last.columns);
    forall row, id | Carries(brand, page, rows + [last], row, id) ensures id in next {
      CarriesNext(brand, page, rows, last, row, id);
    }
    forall id | id in next
      ensures exists row :: Carries(brand, page, rows + [last], row, id) && row.columns == next[id]
    {
      if id in ids - Clashing(specs, ids, last.columns) {
        CarriesNext(brand, page, rows, last, last, id);
      } else {
        var row :| Carries(brand, page, rows, row, id) && row.columns == specs[id];
        CarriesNext(brand, page, rows, last, row, id);
      }
    }
  }

  /** The last row agrees with the rows before it. */
  ghost predicate RowFits(brand: string, page: seq<Element>, rows: seq<SpecRow>, last: SpecRow)
    requires OnPage(page, rows) && RowOnPage(page, last)
  {
    RowCounts(brand, page, last) ==>
      forall x, id :: Carries(brand, page, rows, x, id) && id in RowIds(brand, page, last) ==> x.columns == last.columns
  }

  lemma AgreeNext(brand: string, page: seq<Element>, rows: seq<SpecRow>, last: SpecRow)
    requires OnPage(page, rows + [last]) && OnPage(page, rows) && RowOnPage(page, last)
    ensures RowsAgree(brand, page, rows + [last]) <==> RowsAgree(brand, page, rows) && RowFits(brand, page, rows, last)
  {
    hide RowCounts, RowIds, Carries;
    forall row, id ensures Carries(brand, page, rows + [last], row, id)
       <==> || Carries(brand, page, rows, row, id)
            || (row == last && RowCounts(brand, page, last) && id in RowIds(brand, page, last)) {
      CarriesNext(brand, page, rows, last, row, id);
    }
  }

  lemma FitsIffNoClash(brand: string, page: seq<Element>, rows: seq<SpecRow>, last: SpecRow,
                       specs: map<Identity, seq<string>>)
    requires OnPage(page, rows) && Claimed(brand, page, rows, specs) && RowsAgree(brand, page, rows)
    requires RowOnPage(page, last) && RowCounts(brand, page, last)
    ensures RowFits(brand, page, rows, last) <==> Clashing(specs, RowIds(brand, page, last), last.columns) == {}
  {
    hide RowCounts, RowIds, Carries;
    var ids := RowIds(brand, page, last);
    if RowFits(brand, page, rows, last) {
      forall id | id in ids && id in specs ensures specs[id] == last.columns {
        var x :| Carries(brand, page, rows, x, id) && x.columns == specs[id];
      }
    }
    if Clashing(specs, ids, last.columns) == {} {
      forall x, id | Carries(brand, page, rows, x, id) && id in ids ensures x.columns == last.columns {
        assert id !in Clashing(specs, ids, last.columns);
        var y :| Carries(brand, page, rows, y, id) && y.columns == specs[id];
      }
    }
  }

  lemma {:induction false} RunClaims(brand: string, page: seq<Element>, rows: seq<SpecRow>)
    requires OnPage(page, rows)
    ensures Claimed(brand, page, rows, RunVehicles(brand, page, rows).specs)
    ensures RunVehicles(brand, page, rows).conflicts == 0 <==> RowsAgree(brand, page, rows)
  {
    hide RowCounts, RowIds, Claim, Clashing, FirstMatching, Claimed, RowsAgree, RowFits;
    if rows == [] {
      NothingClaims(brand, page);
    } else {
      var before, last := rows[..|rows| - 1], rows[|rows| - 1];
      assert rows == before + [last] && last in rows;
      assert OnPage(page, before);
      RunClaims(brand, page, before);
      AgreeNext(brand, page, before, last);
      var st := RunVehicles(brand, page, before);
      if RowCounts(brand, page, last) {
        ClaimKeeps(brand, page, before, last, st.specs);
        if RowsAgree(brand, page, before) {
          FitsIffNoClash(brand, page, before, last, st.specs);
          EmptyIffNone(Clashing(st.specs, RowIds(brand, page, last), last.columns));
        }
      } else {
        IdleRow(brand, page, before, last, st.specs);
      }
    }
  }

  lemma EmptyIffNone(ids: set<Identity>)
    ensures |ids| == 0 <==> ids == {}
  {
  }

  lemma NothingClaims(brand: string, page: seq<Element>)
    ensures Claimed(brand, page, [], map[]) && RowsAgree(brand, page, [])
  {
  }

  lemma IdleRow(brand: string, page: seq<Element>, rows: seq<SpecRow>, last: SpecRow, specs: map<Identity, seq<string>>)
    requires OnPage(page, rows + [last]) && OnPage(page, rows) && Claimed(brand, page, rows, specs)
    requires RowOnPage(page, last) && !RowCounts(brand, page, last)
    ensures Claimed(brand, page, rows + [last], specs) && RowFits(brand, page, rows, last)
  {
    hide RowCounts, RowIds, Carries;
    forall x, id ensures Carries(brand, page, rows + [last], x, id) <==> Carries(brand, page, rows, x, id) {
      CarriesNext(brand, page, rows, last, x, id);
    }
  }

  // ---------------------------------------------------------------- the stored page

  /** A link that carries none of the request values c, ssd and vid. */
  predicate Bare(link: Link) { VehicleIdentity(link).ByLink? }

  /** A row that the parser uses, and one of its vehicle links. */
  ghost predicate Uses(brand: string, page: seq<Element>, rows: seq<SpecRow>, row: SpecRow, i: int)
    requires OnPage(page, rows)
  {
    row in rows && RowCounts(brand, page, row) && 0 <= i < |page| && i in row.links
      && IsVehicleLink(brand, page[i].link)
  }

  /** Two uses whose links are bare and look alike once they are sanitised. */
  ghost predicate Merged(brand: string, page: seq<Element>, rows: seq<SpecRow>, x: SpecRow, y: SpecRow, i: int, j: int)
    requires OnPage(page, rows)
  {
    && Uses(brand, page, rows, x, i) && Uses(brand, page, rows, y, j)
    && Bare(page[i].link) && Bare(page[j].link) && SanitizePage(page)[i].link == SanitizePage(page)[j].link
  }

  /** No two bare links of rows with different specifications look alike once they are sanitised. */
  ghost predicate NoCollapse(brand: string, page: seq<Element>, rows: seq<SpecRow>)
    requires OnPage(page, rows)
  {
    forall x, y, i, j :: Merged(brand, page, rows, x, y, i, j) ==> x.columns == y.columns
  }

  ghost predicate Shared(brand: string, page: seq<Element>, rows: seq<SpecRow>, x: SpecRow, y: SpecRow, i: int, j: int)
    requires OnPage(page, rows)
  {
    && Uses(brand, page, rows, x, i) && Uses(brand, page, rows, y, j)
    && VehicleIdentity(page[i].link) == VehicleIdentity(page[j].link)
  }

  lemma CarriedByUse(brand: string, page: seq<Element>, rows: seq<SpecRow>, row: SpecRow, id: Identity)
    requires OnPage(page, rows)
    ensures Carries(brand, page, rows, row, id)
         <==> exists i :: Uses(brand, page, rows, row, i) && VehicleIdentity(page[i].link) == id
  {
    hide RowCounts, VehicleIdentity, IsVehicleLink;
    if Carries(brand, page, rows, row, id) {
      var i :| i in row.links && IsVehicleLink(brand, page[i].link) && VehicleIdentity(page[i].link) == id;
      assert Uses(brand, page, rows, row, i);
    }
  }

  lemma VehicleLinkRenamed(brand: string, link: Link, names: Aliases)
    requires NotBlank(names) && Covers(link.query, names)
    ensures IsVehicleLink(brand, Rename(link, names)) <==> IsVehicleLink(brand, link)
    ensures IdRenamed(VehicleIdentity(link), VehicleIdentity(Rename(link, names)), 1, names)
    ensures Bare(link) ==> VehicleIdentity(link).link == link
  {
    hide Covers, NotBlank, Qs, IsParserKey, ParserKeys;
    KeysParsed();
    QsRenamed(link, names, "c");
    IdentityIsRenamed(link, names, VEHICLE_KEYS, [], 1);
  }

  lemma PageLinks(brand: string, page: seq<Element>, names: Aliases)
    requires NotBlank(names) && AllCovered(page, names)
    ensures forall i :: 0 <= i < |page| ==>
              && (IsVehicleLink(brand, RenamePage(page, names)[i].link) <==> IsVehicleLink(brand, page[i].link))
              && IdRenamed(VehicleIdentity(page[i].link), VehicleIdentity(RenamePage(page, names)[i].link), 1, names)
  {
    hide Covers, NotBlank, IdRenamed, VehicleIdentity, IsVehicleLink;
    forall i | 0 <= i < |page|
      ensures IsVehicleLink(brand, RenamePage(page, names)[i].link) <==> IsVehicleLink(brand, page[i].link)
      ensures IdRenamed(VehicleIdentity(page[i].link), VehicleIdentity(RenamePage(page, names)[i].link), 1, names)
    {
      assert page[i] in page;
      VehicleLinkRenamed(brand, page[i].link, names);
    }
  }

  lemma {:induction false} FirstMatchingRenamed(brand: string, page: seq<Element>, names: Aliases, links: seq<nat>)
    requires NotBlank(names) && AllCovered(page, names) && forall i :: i in links ==> i < |page|
    ensures var live, replay := FirstMatching(brand, page, links), FirstMatching(brand, RenamePage(page, names), links);
      (live.Some? <==> replay.Some?)
        && (live.Some? ==> replay.value == Rename(live.value, names) && Covers(live.value.query, names))
  {
    hide Covers, NotBlank, IdRenamed, VehicleIdentity, IsVehicleLink;
    if links != [] {
      assert links[0] in links && page[links[0]] in page;
      PageLinks(brand, page, names);
      assert forall i :: i in links[1..] ==> i in links;
      FirstMatchingRenamed(brand, page, names, links[1..]);
    }
  }

  lemma OnStoredPage(page: seq<Element>, names: Aliases, rows: seq<SpecRow>)
    requires OnPage(page, rows)
    ensures OnPage(RenamePage(page, names), rows)
  {
    hide Rename;
    assert forall row, i :: row in rows && i in row.links ==> RowOnPage(page, row) && i < |page| && page[i].text.Some?;
  }

  lemma UsesRenamed(brand: string, page: seq<Element>, names: Aliases, rows: seq<SpecRow>, x: SpecRow, i: int)
    requires NotBlank(names) && AllCovered(page, names) && OnPage(page, rows) && OnPage(RenamePage(page, names), rows)
    ensures Uses(brand, RenamePage(page, names), rows, x, i) <==> Uses(brand, page, rows, x, i)
  {
    hide Covers, NotBlank, IdRenamed, VehicleIdentity, IsVehicleLink, FirstMatching, AllCovered, Rename;
    if x in rows {
      FirstMatchingRenamed(brand, page, names, x.links);
      PageLinks(brand, page, names);
    }
  }

  /** Two links share an identity in the stored page if they did live, or if they were bare and merged. */
  lemma SharedAfter(brand: string, page: seq<Element>, names: Aliases, i: nat, j: nat)
    requires Numbered(names) && NotBlank(names) && AllCovered(page, names) && i < |page| && j < |page|
    ensures var stored := RenamePage(page, names);
      var merged := Bare(page[i].link) && Bare(page[j].link) && stored[i].link == stored[j].link;
      var shared := VehicleIdentity(page[i].link) == VehicleIdentity(page[j].link);
      VehicleIdentity(stored[i].link) == VehicleIdentity(stored[j].link) <==> shared || merged
  {
    hide Numbered, NotBlank, Covers, CandidateIdentity, Rename;
    assert page[i] in page && page[j] in page;
    VehicleLinkRenamed("", page[i].link, names);
    VehicleLinkRenamed("", page[j].link, names);
    var stored := RenamePage(page, names);
    RenamedIdsAgree(VehicleIdentity(page[i].link), VehicleIdentity(page[j].link),
                    VehicleIdentity(stored[i].link), VehicleIdentity(stored[j].link), 1, names);
  }

  /** Agreement, put in terms of links instead of identities. */
  lemma AgreeByUses(brand: string, page: seq<Element>, rows: seq<SpecRow>)
    requires OnPage(page, rows)
    ensures RowsAgree(brand, page, rows)
         <==> forall x, y, i, j :: Shared(brand, page, rows, x, y, i, j) ==> x.columns == y.columns
  {
    hide RowCounts, VehicleIdentity, IsVehicleLink, Carries;
    if RowsAgree(brand, page, rows) {
      forall x, y, i, j | Shared(brand, page, rows, x, y, i, j) ensures x.columns == y.columns {
        CarriedByUse(brand, page, rows, x, VehicleIdentity(page[i].link));
        CarriedByUse(brand, page, rows, y, VehicleIdentity(page[i].link));
      }
    }
    if forall x, y, i, j :: Shared(brand, page, rows, x, y, i, j) ==> x.columns == y.columns {
      forall x, y, id | Carries(brand, page, rows, x, id) && Carries(brand, page, rows, y, id)
        ensures x.columns == y.columns
      {
        CarriedByUse(brand, page, rows, x, id);
        CarriedByUse(brand, page, rows, y, id);
        var i :| Uses(brand, page, rows, x, i) && VehicleIdentity(page[i].link) == id;
        var j :| Uses(brand, page, rows, y, j) && VehicleIdentity(page[j].link) == id;
        assert Shared(brand, page, rows, x, y, i, j);
      }
    }
  }

  lemma SharedIffMerged(brand: string, page: seq<Element>, rows: seq<SpecRow>, names: Aliases, x: SpecRow, y: SpecRow,
                        i: int, j: int)
    requires Numbered(names) && NotBlank(names) && AllCovered(page, names)
      && SanitizePage(page) == RenamePage(page, names)
    requires OnPage(page, rows) && OnPage(SanitizePage(page), rows)
    ensures Shared(brand, SanitizePage(page), rows, x, y, i, j)
       <==> Shared(brand, page, rows, x, y, i, j) || Merged(brand, page, rows, x, y, i, j)
  {
    hide Numbered, NotBlank, AllCovered, VehicleIdentity, Bare, Rename, SanitizePage, RowCounts, IsVehicleLink;
    UsesRenamed(brand, page, names, rows, x, i);
    UsesRenamed(brand, page, names, rows, y, j);
    if Uses(brand, page, rows, x, i) && Uses(brand, page, rows, y, j) { SharedAfter(brand, page, names, i, j); }
  }

  lemma AgreeIffNoCollapse(brand: string, page: seq<Element>, rows: seq<SpecRow>, names: Aliases)
    requires Numbered(names) && NotBlank(names) && AllCovered(page, names)
      && SanitizePage(page) == RenamePage(page, names)
    requires OnPage(page, rows) && OnPage(SanitizePage(page), rows) && RowsAgree(brand, page, rows)
    ensures RowsAgree(brand, SanitizePage(page), rows) <==> NoCollapse(brand, page, rows)
  {
    hide Numbered, NotBlank, AllCovered, SanitizePage, RowsAgree, Shared, Merged;
    AgreeByUses(brand, page, rows);
    AgreeByUses(brand, SanitizePage(page), rows);
    forall x, y, i, j ensures Shared(brand, SanitizePage(page), rows, x, y, i, j)
                         <==> Shared(brand, page, rows, x, y, i, j) || Merged(brand, page, rows, x, y, i, j) {
      SharedIffMerged(brand, page, rows, names, x, y, i, j);
    }
  }

  datatype PublicVehicle = PublicVehicle(columns: seq<string>, vid: Option<string>, url: PublicUrl)

  function PublicVehicleOf(v: VehicleRecord): PublicVehicle {
    PublicVehicle(v.columns, Qs(v.link, "vid"), PublicUrlOf(v.link))
  }

  ghost predicate VehicleRenamed(v: VehicleRecord, r: VehicleRecord, names: Aliases) {
    r == v.(link := Rename(v.link, names)) && Covers(v.link.query, names)
  }

  ghost predicate VehiclesRenamed(live: seq<VehicleRecord>, replay: seq<VehicleRecord>, names: Aliases) {
    |replay| == |live| && forall i :: 0 <= i < |live| ==> VehicleRenamed(live[i], replay[i], names)
  }

  lemma {:induction false} RunRecordsRenamed(brand: string, page: seq<Element>, rows: seq<SpecRow>, names: Aliases)
    requires NotBlank(names) && AllCovered(page, names) && OnPage(page, rows) && OnPage(RenamePage(page, names), rows)
    ensures VehiclesRenamed(RunVehicles(brand, page, rows).records,
                            RunVehicles(brand, RenamePage(page, names), rows).records, names)
  {
    hide NotBlank, AllCovered, Covers, Rename, FirstMatching, Claim, Clashing, RowIds;
    if rows != [] {
      var before, last := rows[..|rows| - 1], rows[|rows| - 1];
      assert last in rows;
      RunRecordsRenamed(brand, page, before, names);
      FirstMatchingRenamed(brand, page, names, last.links);
    }
  }

  lemma {:induction false} DistinctRenamed(live: seq<VehicleRecord>, replay: seq<VehicleRecord>, names: Aliases)
    requires VehiclesRenamed(live, replay, names)
    ensures VehiclesRenamed(Distinct(live), Distinct(replay), names)
  {
    hide Covers, Rename;
    if live != [] {
      var n := |live| - 1;
      DistinctRenamed(live[..n], replay[..n], names);
      SameColumns(live[..n], replay[..n], names);
    }
  }

  lemma SameColumns(live: seq<VehicleRecord>, replay: seq<VehicleRecord>, names: Aliases)
    requires VehiclesRenamed(live, replay, names)
    ensures Columns(live) == Columns(replay)
  {
    hide Covers, Rename;
    forall c ensures c in Columns(live) <==> c in Columns(replay) {
      if c in Columns(live) {
        var i :| 0 <= i < |live| && live[i].columns == c;
        assert replay[i] in replay;
      }
      if c in Columns(replay) {
        var i :| 0 <= i < |replay| && replay[i].columns == c;
        assert live[i] in live;
      }
    }
  }

  lemma RenamedVehicleIsPublic(v: VehicleRecord, r: VehicleRecord, names: Aliases)
    requires VehicleRenamed(v, r, names) && NotBlank(names)
    ensures PublicVehicleOf(r) == PublicVehicleOf(v)
  {
    hide Covers, NotBlank, Qs, IsParserKey, PublicUrlOf;
    KeysParsed();
    QsRenamed(v.link, names, "vid");
    PublicUrlKept(v.link, names);
  }

  lemma CandidatesRenamed(brand: string, page: seq<Element>, names: Aliases)
    requires NotBlank(names) && AllCovered(page, names)
    ensures IdsRenamed(VehicleCandidates(brand, page), VehicleCandidates(brand, RenamePage(page, names)), 1, names)
  {
    hide NotBlank, AllCovered, IdRenamed, VehicleIdentity, IsVehicleLink, Rename;
    var stored := RenamePage(page, names);
    var ids, rs := VehicleCandidates(brand, page), VehicleCandidates(brand, stored);
    PageLinks(brand, page, names);
    forall r | r in rs ensures exists id :: id in ids && IdRenamed(id, r, 1, names) {
      var e :| e in stored && e.text.Some? && IsVehicleLink(brand, e.link) && r == VehicleIdentity(e.link);
      var i :| 0 <= i < |stored| && stored[i] == e;
      assert page[i] in page && VehicleIdentity(page[i].link) in ids;
    }
    forall id | id in ids ensures exists r :: r in rs && IdRenamed(id, r, 1, names) {
      var e :| e in page && e.text.Some? && IsVehicleLink(brand, e.link) && id == VehicleIdentity(e.link);
      var i :| 0 <= i < |page| && page[i] == e;
      assert stored[i] in stored && VehicleIdentity(stored[i].link) in rs;
    }
  }

  lemma CarriesRenamed(brand: string, page: seq<Element>, rows: seq<SpecRow>, names: Aliases, x: SpecRow, i: int)
    requires NotBlank(names) && AllCovered(page, names) && OnPage(page, rows) && OnPage(RenamePage(page, names), rows)
    requires Uses(brand, page, rows, x, i)
    ensures var id, r := VehicleIdentity(page[i].link), VehicleIdentity(RenamePage(page, names)[i].link);
      && IdRenamed(id, r, 1, names) && Uses(brand, RenamePage(page, names), rows, x, i)
      && Carries(brand, page, rows, x, id) && Carries(brand, RenamePage(page, names), rows, x, r)
  {
    hide NotBlank, AllCovered, IdRenamed, VehicleIdentity, IsVehicleLink, Rename, RowCounts, Carries;
    PageLinks(brand, page, names);
    UsesRenamed(brand, page, names, rows, x, i);
    CarriedByUse(brand, page, rows, x, VehicleIdentity(page[i].link));
    CarriedByUse(brand, RenamePage(page, names), rows, x, VehicleIdentity(RenamePage(page, names)[i].link));
  }

  lemma ClaimBefore(brand: string, page: seq<Element>, rows: seq<SpecRow>, names: Aliases, r: Identity)
      returns (id: Identity)
    requires NotBlank(names) && AllCovered(page, names) && OnPage(page, rows) && OnPage(RenamePage(page, names), rows)
    requires r in RunVehicles(brand, RenamePage(page, names), rows).specs
    ensures id in RunVehicles(brand, page, rows).specs && IdRenamed(id, r, 1, names)
  {
    hide NotBlank, AllCovered, IdRenamed, VehicleIdentity, IsVehicleLink, Rename, RunVehicles, RowCounts, RowsAgree,
         Carries, Uses;
    var stored := RenamePage(page, names);
    RunClaims(brand, page, rows);
    RunClaims(brand, stored, rows);
    var x :| Carries(brand, stored, rows, x, r);
    var i := UseOf(brand, stored, rows, x, r);
    UsesRenamed(brand, page, names, rows, x, i);
    CarriesRenamed(brand, page, rows, names, x, i);
    id := VehicleIdentity(page[i].link);
  }

  lemma ClaimAfter(brand: string, page: seq<Element>, rows: seq<SpecRow>, names: Aliases, id: Identity)
      returns (r: Identity)
    requires NotBlank(names) && AllCovered(page, names) && OnPage(page, rows) && OnPage(RenamePage(page, names), rows)
    requires id in RunVehicles(brand, page, rows).specs
    ensures r in RunVehicles(brand, RenamePage(page, names), rows).specs && IdRenamed(id, r, 1, names)
  {
    hide NotBlank, AllCovered, IdRenamed, VehicleIdentity, IsVehicleLink, Rename, RunVehicles, RowCounts, RowsAgree,
         Carries, Uses;
    RunClaims(brand, page, rows);
    RunClaims(brand, RenamePage(page, names), rows);
    var x :| Carries(brand, page, rows, x, id);
    var i := UseOf(brand, page, rows, x, id);
    CarriesRenamed(brand, page, rows, names, x, i);
    r := VehicleIdentity(RenamePage(page, names)[i].link);
  }

  lemma ClaimsRenamed(brand: string, page: seq<Element>, rows: seq<SpecRow>, names: Aliases)
    requires NotBlank(names) && AllCovered(page, names) && OnPage(page, rows) && OnPage(RenamePage(page, names), rows)
    ensures IdsRenamed(RunVehicles(brand, page, rows).specs.Keys,
                       RunVehicles(brand, RenamePage(page, names), rows).specs.Keys, 1, names)
  {
    hide NotBlank, AllCovered, IdRenamed, RunVehicles, Rename;
    var specs, claims := RunVehicles(brand, page, rows).specs, RunVehicles(brand, RenamePage(page, names), rows).specs;
    forall r | r in claims ensures exists id :: id in specs && IdRenamed(id, r, 1, names) {
      var id := ClaimBefore(brand, page, rows, names, r);
    }
    forall id | id in specs ensures exists r :: r in claims && IdRenamed(id, r, 1, names) {
      var r := ClaimAfter(brand, page, rows, names, id);
    }
  }

  lemma UseOf(brand: string, page: seq<Element>, rows: seq<SpecRow>, row: SpecRow, id: Identity) returns (i: int)
    requires OnPage(page, rows) && Carries(brand, page, rows, row, id)
    ensures Uses(brand, page, rows, row, i) && 0 <= i < |page| && VehicleIdentity(page[i].link) == id
  {
    hide RowCounts, IsVehicleLink, VehicleIdentity, Carries;
    CarriedByUse(brand, page, rows, row, id);
    i :| Uses(brand, page, rows, row, i) && VehicleIdentity(page[i].link) == id;
  }

  /** Vehicle pages that parsed without faults: the records are the same, and the stored page parses
      without faults exactly when no bare links of different specifications merged. */
  lemma ReplayPreservesVehicles(brand: string, page: seq<Element>, rows: seq<SpecRow>)
    requires OnPage(page, rows)
    ensures OnPage(SanitizePage(page), rows)
    ensures var live, replay := RunVehicles(brand, page, rows), RunVehicles(brand, SanitizePage(page), rows);
      && |Distinct(replay.records)| == |Distinct(live.records)|
      && (forall i :: 0 <= i < |Distinct(live.records)| ==>
            PublicVehicleOf(Distinct(replay.records)[i]) == PublicVehicleOf(Distinct(live.records)[i]))
      && (VehiclesMalformed(brand, page, live) == 0 ==>
            (VehiclesMalformed(brand, SanitizePage(page), replay) == 0 <==> NoCollapse(brand, page, rows)))
  {
    hide Numbered, NotBlank, AllCovered, SanitizePage, RunVehicles, PublicVehicleOf, IdsRenamed, VehicleRenamed,
         Claimed, RowsAgree, NoCollapse, VehicleCandidates, Distinct;
    var names := PageIsRenamed(page);
    OnStoredPage(page, names, rows);
    var stored := SanitizePage(page);
    var live, replay := RunVehicles(brand, page, rows), RunVehicles(brand, stored, rows);
    RunRecordsRenamed(brand, page, rows, names);
    DistinctRenamed(live.records, replay.records, names);
    forall i | 0 <= i < |Distinct(live.records)|
      ensures PublicVehicleOf(Distinct(replay.records)[i]) == PublicVehicleOf(Distinct(live.records)[i])
    {
      RenamedVehicleIsPublic(Distinct(live.records)[i], Distinct(replay.records)[i], names);
    }
    if VehiclesMalformed(brand, page, live) == 0 {
      RunClaims(brand, page, rows);
      RunClaims(brand, stored, rows);
      AgreeIffNoCollapse(brand, page, rows, names);
      CandidatesRenamed(brand, page, names);
      ClaimsRenamed(brand, page, rows, names);
      ReconciledStaysSet(VehicleCandidates(brand, page), live.specs.Keys,
                         VehicleCandidates(brand, stored), replay.specs.Keys, 1, names);
    }
  }

  /** When every link carries a brand, a token or a vehicle id, nothing can merge. */
  lemma ValuedLinksNeverCollapse(brand: string, page: seq<Element>, rows: seq<SpecRow>)
    requires OnPage(page, rows)
    requires forall e :: e in page && IsVehicleLink(brand, e.link) ==>
               Qs(e.link, "c").Some? || Qs(e.link, "ssd").Some? || Qs(e.link, "vid").Some?
    ensures NoCollapse(brand, page, rows)
  {
    hide SanitizePage, RowCounts;
    forall x, i | Uses(brand, page, rows, x, i) ensures !Bare(page[i].link) {
      assert page[i] in page;
      var values := Values(page[i].link, VEHICLE_KEYS);
      assert values[0] in values && values[1] in values && values[2] in values;
    }
  }

  // ---------------------------------------------------------------- a page that does not replay

  function BareLink(address: string, rest: string): Link { Link(address, VehiclePage, [], rest) }

  /** Two vehicle links without request values that differ in their spelling only, each in a row of its own. */
  function BarePage(address: string, first: string, second: string): seq<Element> {
    [Element(BareLink(address, first), Some("")), Element(BareLink(address, second), Some(""))]
  }

  const BARE_ROWS := [SpecRow([0], ["A"]), SpecRow([1], ["B"])]

  lemma BareLinkFacts(brand: string, address: string, rest: string)
    ensures var link := BareLink(address, rest);
      IsVehicleLink(brand, link) && Bare(link) && VehicleIdentity(link) == ByLink([None, None, None], link)
  {
    var link := BareLink(address, rest);
    assert VEHICLE_KEYS[1..] == ["ssd", "vid"] && ["ssd", "vid"][1..] == ["vid"] && ["vid"][1..] == [];
    assert Values(link, VEHICLE_KEYS) == [None, None, None];
  }

  lemma BareRowFacts(brand: string, address: string, first: string, second: string)
    ensures var page := BarePage(address, first, second);
      && OnPage(page, BARE_ROWS)
      && Uses(brand, page, BARE_ROWS, BARE_ROWS[0], 0) && Uses(brand, page, BARE_ROWS, BARE_ROWS[1], 1)
      && RowIds(brand, page, BARE_ROWS[0]) == {VehicleIdentity(page[0].link)}
      && RowIds(brand, page, BARE_ROWS[1]) == {VehicleIdentity(page[1].link)}
  {
    hide IsVehicleLink, VehicleIdentity;
    BareLinkFacts(brand, address, first);
    BareLinkFacts(brand, address, second);
    assert BARE_ROWS[0] in BARE_ROWS && BARE_ROWS[1] in BARE_ROWS;
    assert "A" in BARE_ROWS[0].columns && "B" in BARE_ROWS[1].columns;
  }

  lemma BareStored(address: string, first: string, second: string)
    ensures var stored := SanitizePage(BarePage(address, first, second));
      |stored| == 2 && stored[0].link == stored[1].link
  {
    hide Numbered;
    var page := BarePage(address, first, second);
    var names := PageIsRenamed(page);
  }

  /** Any two bare links that differ in their spelling only are told apart live and not in the stored page. */
  lemma BareLinksCollapse(brand: string, address: string, first: string, second: string)
    requires first != second
    ensures var page := BarePage(address, first, second);
      && OnPage(page, BARE_ROWS) && OnPage(SanitizePage(page), BARE_ROWS)
      && VehiclesMalformed(brand, page, RunVehicles(brand, page, BARE_ROWS)) == 0
      && VehiclesMalformed(brand, SanitizePage(page), RunVehicles(brand, SanitizePage(page), BARE_ROWS)) > 0
  {
    hide SanitizePage, RunVehicles, RowCounts, RowIds, IsVehicleLink, VehicleIdentity, Distinct;
    var page := BarePage(address, first, second);
    BareLinkFacts(brand, address, first);
    BareLinkFacts(brand, address, second);
    BareRowFacts(brand, address, first, second);
    BareStored(address, first, second);
    RunClaims(brand, page, BARE_ROWS);
    assert RowsAgree(brand, page, BARE_ROWS);
    var specs := RunVehicles(brand, page, BARE_ROWS).specs;
    assert Carries(brand, page, BARE_ROWS, BARE_ROWS[0], VehicleIdentity(page[0].link));
    assert Carries(brand, page, BARE_ROWS, BARE_ROWS[1], VehicleIdentity(page[1].link));
    assert VehicleCandidates(brand, page) - specs.Keys == {};
    ReplayPreservesVehicles(brand, page, BARE_ROWS);
    assert Merged(brand, page, BARE_ROWS, BARE_ROWS[0], BARE_ROWS[1], 0, 1);
  }
}
