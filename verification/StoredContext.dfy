/**
The context of a stored page.  The values a parser was called with are brought into Unicode normal
form before they are stored, and replay uses the stored ones; the links of the page keep their
spelling.  Live and stored context are two values here: replay with the stored one agrees on every
page exactly when normalising changed nothing that the parser looks at.
*/
module StoredContext {
  import opened Wrappers
  import opened Links
  import opened Sanitizer
  import opened GroupParse
  import opened GroupReplay
  import opened CatalogParse
  import opened CatalogReplay
  import opened VehicleReplay

  /** A page with one link. */
  function OneLink(endpoint: Endpoint, query: seq<Pair>, text: string): seq<Element> {
    [Element(Link("", endpoint, query, ""), Some(text))]
  }

  lemma OneAnchor(endpoint: Endpoint, query: seq<Pair>, text: string)
    ensures AnchorsOf(OneLink(endpoint, query, text)) == [Anchor(Link("", endpoint, query, ""), text)]
  {
    var page := OneLink(endpoint, query, text);
    assert page[..0] == [];
  }

  // ---------------------------------------------------------------- models

  ghost predicate ModelsReplay(live: string, stored: string, page: seq<Element>) {
    var a, b := AnchorsOf(page), AnchorsOf(SanitizePage(page));
    && (ModelsMalformed(live, a) == 0 ==> ModelsMalformed(stored, b) == 0)
    && |ModelRecords(stored, b)| == |ModelRecords(live, a)|
    && forall i :: 0 <= i < |ModelRecords(live, a)| ==>
         PublicModelOf(ModelRecords(stored, b)[i]) == PublicModelOf(ModelRecords(live, a)[i])
  }

  lemma OneModel(brand: string, value: string)
    ensures |ModelRecords(brand, AnchorsOf(OneLink(Pick, [Pair("c", value)], "M")))|
         == if value == "" || value == brand then 1 else 0
  {
    hide SanitizePage;
    OneAnchor(Pick, [Pair("c", value)], "M");
    var anchors := AnchorsOf(OneLink(Pick, [Pair("c", value)], "M"));
    assert anchors[..0] == [];
    OnePair("c", value);
  }

  lemma FirstStep(p: Pair, rest: seq<Pair>, key: string)
    ensures First([p] + rest, key) == if p.key == key && p.value != "" then Some(p.value) else First(rest, key)
  {
    assert ([p] + rest)[1..] == rest;
  }

  lemma OnePair(key: string, value: string)
    ensures First([Pair(key, value)], key) == if value == "" then None else Some(value)
  {
    assert [Pair(key, value)][1..] == [];
  }

  /** Model pages replay with the stored brand exactly when it is the live one. */
  lemma ModelsReplayIff(live: string, stored: string)
    ensures (forall page :: ModelsReplay(live, stored, page)) <==> stored == live
  {
    hide SanitizePage, ModelRecords, ModelsMalformed;
    if stored == live {
      forall page ensures ModelsReplay(live, stored, page) { ReplayPreservesModels(live, page); }
    } else {
      var page := OneLink(Pick, [Pair("c", if live != "" then live else stored)], "M");
      OneModel(live, if live != "" then live else stored);
      OneModel(stored, if live != "" then live else stored);
      ReplayPreservesModels(stored, page);
      assert !ModelsReplay(live, stored, page);
    }
  }

  // ---------------------------------------------------------------- vehicles

  ghost predicate VehiclesReplay(live: string, stored: string, page: seq<Element>, rows: seq<SpecRow>)
    requires OnPage(page, rows) && OnPage(SanitizePage(page), rows)
  {
    var a, b := RunVehicles(live, page, rows), RunVehicles(stored, SanitizePage(page), rows);
    && |Distinct(b.records)| == |Distinct(a.records)|
    && (forall i :: 0 <= i < |Distinct(a.records)| ==>
          PublicVehicleOf(Distinct(b.records)[i]) == PublicVehicleOf(Distinct(a.records)[i]))
    && (VehiclesMalformed(live, page, a) == 0 ==>
          (VehiclesMalformed(stored, SanitizePage(page), b) == 0 <==> NoCollapse(live, page, rows)))
  }

  const ONE_ROW := [SpecRow([0], ["A"])]

  lemma OneVehicle(brand: string, value: string)
    ensures var page := OneLink(VehiclePage, [Pair("c", value)], "A");
      OnPage(page, ONE_ROW) && |Distinct(RunVehicles(brand, page, ONE_ROW).records)|
        == if value == "" || value == brand then 1 else 0
  {
    var page := OneLink(VehiclePage, [Pair("c", value)], "A");
    OnePair("c", value);
    assert ONE_ROW[..0] == [] && ONE_ROW[0].links[1..] == [];
    assert ONE_ROW[0].links[0] == 0 && "A" in ONE_ROW[0].columns;
    assert FirstMatching(brand, page, []) == None;
    assert RowCounts(brand, page, ONE_ROW[0]) <==> value == "" || value == brand;
    var st := RunVehicles(brand, page, ONE_ROW);
    assert st.records[..0] == [] && Columns(st.records[..0]) == {};
  }

  /** So do vehicle pages, within what replay preserves with one brand. */
  lemma VehiclesReplayIff(live: string, stored: string)
    ensures (forall page, rows :: OnPage(page, rows) ==>
               OnPage(SanitizePage(page), rows) && VehiclesReplay(live, stored, page, rows))
       <==> stored == live
  {
    hide SanitizePage, RunVehicles, VehiclesMalformed, NoCollapse, Distinct, OnPage;
    if stored == live {
      forall page, rows | OnPage(page, rows)
        ensures OnPage(SanitizePage(page), rows) && VehiclesReplay(live, stored, page, rows)
      {
        ReplayPreservesVehicles(live, page, rows);
      }
    } else {
      var page := OneLink(VehiclePage, [Pair("c", if live != "" then live else stored)], "A");
      OneVehicle(live, if live != "" then live else stored);
      OneVehicle(stored, if live != "" then live else stored);
      ReplayPreservesVehicles(stored, page, ONE_ROW);
      assert !VehiclesReplay(live, stored, page, ONE_ROW);
    }
  }

  // ---------------------------------------------------------------- categories

  /** What the pages below a vehicle are parsed with: its brand and its id. */
  datatype Vehicle = Vehicle(brand: string, vid: string)

  /** No link fits a blank id; otherwise every value counts. */
  predicate SameVehicle(a: Vehicle, b: Vehicle) { a.vid == b.vid && (a.vid != "" ==> a.brand == b.brand) }

  function CategoryContext(v: Vehicle, unquote: string -> string): VehicleContext {
    VehicleContext(v.brand, Some(v.vid), unquote)
  }

  ghost predicate CategoriesReplay(live: VehicleContext, stored: VehicleContext, page: seq<Element>) {
    var a, b := RunCategories(live, AnchorsOf(page)), RunCategories(stored, AnchorsOf(SanitizePage(page)));
    && (CategoriesMalformed(a) == 0 ==> CategoriesMalformed(b) == 0)
    && b.skipped == a.skipped && |b.records| == |a.records|
    && forall i :: 0 <= i < |a.records| ==> PublicCategoryOf(b.records[i]) == PublicCategoryOf(a.records[i])
  }

  /** The query of a link of the given vehicle, with further pairs. */
  function VehicleQuery(v: Vehicle, more: seq<Pair>): seq<Pair> { [Pair("c", v.brand), Pair("vid", v.vid)] + more }

  /** Whether a link with the query of `v` fits what is expected. */
  predicate Fits(expected: Vehicle, v: Vehicle) {
    (v.brand == "" || v.brand == expected.brand) && v.vid != "" && v.vid == expected.vid
  }

  lemma VehicleQueryFirst(v: Vehicle, more: seq<Pair>, key: string)
    ensures First(VehicleQuery(v, more), key)
         == if key == "c" && v.brand != "" then Some(v.brand)
            else if key == "vid" && v.vid != "" then Some(v.vid) else First(more, key)
  {
    FirstStep(Pair("vid", v.vid), more, key);
    FirstStep(Pair("c", v.brand), [Pair("vid", v.vid)] + more, key);
    assert VehicleQuery(v, more) == [Pair("c", v.brand)] + ([Pair("vid", v.vid)] + more);
  }

  lemma VehicleQueryFits(expected: Vehicle, v: Vehicle, endpoint: Endpoint, key: string, value: string)
    requires key != "c" && key != "vid" && value != ""
    ensures var link := Link("", endpoint, VehicleQuery(v, [Pair(key, value)]), "");
      && Qs(link, key) == Some(value)
      && (Fits(expected, v) <==> !ContextMismatch(link, "c", Some(expected.brand), true)
                                 && !ContextMismatch(link, "vid", Some(expected.vid), false))
  {
    VehicleQueryFirst(v, [Pair(key, value)], key);
    VehicleQueryFirst(v, [Pair(key, value)], "c");
    VehicleQueryFirst(v, [Pair(key, value)], "vid");
    FirstStep(Pair(key, value), [], key);
    FirstStep(Pair(key, value), [], "c");
    FirstStep(Pair(key, value), [], "vid");
    assert [Pair(key, value)] + [] == [Pair(key, value)];
  }

  lemma OneCategory(expected: Vehicle, unquote: string -> string, v: Vehicle)
    ensures var page := OneLink(VehiclePage, VehicleQuery(v, [Pair("cid", "7")]), "N");
      |RunCategories(CategoryContext(expected, unquote), AnchorsOf(page)).records| == if Fits(expected, v) then 1 else 0
  {
    hide Fits, Qs;
    OneAnchor(VehiclePage, VehicleQuery(v, [Pair("cid", "7")]), "N");
    var anchors := AnchorsOf(OneLink(VehiclePage, VehicleQuery(v, [Pair("cid", "7")]), "N"));
    assert anchors[..0] == [];
    VehicleQueryFits(expected, v, VehiclePage, "cid", "7");
  }

  /** One of two different vehicles that the other is told from by a link of its own. */
  function Apart(a: Vehicle, b: Vehicle): (v: Vehicle)
    requires !SameVehicle(a, b)
    ensures Fits(a, v) <==> !Fits(b, v)
  {
    if a.vid == b.vid then (if a.brand != "" then a else b)
    else if a.vid != "" then a else b
  }

  /** Category pages replay with the stored context exactly when vehicle id and, unless that is blank,
      brand are the live ones. */
  lemma CategoriesReplayIff(live: Vehicle, stored: Vehicle, unquote: string -> string)
    ensures (forall page :: CategoriesReplay(CategoryContext(live, unquote), CategoryContext(stored, unquote), page))
       <==> SameVehicle(live, stored)
  {
    hide SanitizePage, RunCategories, CategoriesMalformed, Fits;
    var a, b := CategoryContext(live, unquote), CategoryContext(stored, unquote);
    if SameVehicle(live, stored) {
      forall page ensures CategoriesReplay(a, b, page) {
        ReplayPreservesCategories(b, page);
        SameCategories(live, stored, unquote, AnchorsOf(page));
      }
    } else {
      var v := Apart(live, stored);
      var page := OneLink(VehiclePage, VehicleQuery(v, [Pair("cid", "7")]), "N");
      OneCategory(live, unquote, v);
      OneCategory(stored, unquote, v);
      ReplayPreservesCategories(b, page);
      assert !CategoriesReplay(a, b, page);
    }
  }

  lemma {:induction false} SameCategories(a: Vehicle, b: Vehicle, unquote: string -> string, anchors: seq<Anchor>)
    requires SameVehicle(a, b)
    ensures RunCategories(CategoryContext(a, unquote), anchors) == RunCategories(CategoryContext(b, unquote), anchors)
  {
    hide AddCategory, CategoryIdentity;
    if anchors != [] { SameCategories(a, b, unquote, anchors[..|anchors| - 1]); }
  }

  // ---------------------------------------------------------------- groups

  /** The category id is the expected one and stands in where a link has none. */
  function GroupContext(v: Vehicle, cid: string): Context { Context(v.brand, cid, Some(v.vid), Some(cid)) }

  ghost predicate GroupsReplay(live: Context, stored: Context, page: seq<Element>) {
    var a, b := ParseGroups(live, AnchorsOf(page)), ParseGroups(stored, AnchorsOf(SanitizePage(page)));
    a.malformed == 0 ==>
      && b.malformed == 0 && b.skipped == a.skipped && b.imageOnly == a.imageOnly && |b.groups| == |a.groups|
      && forall i :: 0 <= i < |a.groups| ==> PublicGroupOf(b.groups[i]) == PublicGroupOf(a.groups[i])
  }

  /** No link fits a blank vehicle id; otherwise every value counts. */
  predicate SameGroups(a: Vehicle, x: string, b: Vehicle, y: string) { SameVehicle(a, b) && (a.vid != "" ==> x == y) }

  /** A picture of a group, with the category id unless that is blank. */
  function PictureQuery(v: Vehicle, cid: string): seq<Pair> { VehicleQuery(v, [Pair("uid", "1"), Pair("cid", cid)]) }

  lemma PictureValue(v: Vehicle, cid: string, key: string)
    requires key in {"c", "vid", "uid", "cid"}
    ensures var value :=
        if key == "c" then v.brand else if key == "vid" then v.vid else if key == "uid" then "1" else cid;
      First(PictureQuery(v, cid), key) == if value == "" then None else Some(value)
  {
    VehicleQueryFirst(v, [Pair("uid", "1"), Pair("cid", cid)], key);
    FirstStep(Pair("uid", "1"), [Pair("cid", cid)], key);
    FirstStep(Pair("cid", cid), [], key);
    assert [Pair("cid", cid)] + [] == [Pair("cid", cid)];
    assert [Pair("uid", "1")] + [Pair("cid", cid)] == [Pair("uid", "1"), Pair("cid", cid)];
  }

  lemma PictureEntry(expected: Vehicle, x: string, v: Vehicle, cid: string)
    ensures var a := Anchor(Link("", Unit, PictureQuery(v, cid), ""), "");
      var e := Classify(GroupContext(expected, x), a);
      && e.Some? && e.value.cid == (if cid == "" then x else cid) && e.value.uid == "1"
      && e.value.role == if !Fits(expected, v) then Foreign else if cid != "" && cid != x then Unusable else Picture
  {
    hide CandidateIdentity, GroupText;
    PictureValue(v, cid, "c");
    PictureValue(v, cid, "vid");
    PictureValue(v, cid, "uid");
    PictureValue(v, cid, "cid");
  }

  lemma OneEntry(ctx: Context, query: seq<Pair>)
    ensures var page := OneLink(Unit, query, "");
      var e := Classify(ctx, Anchor(Link("", Unit, query, ""), ""));
      e.Some? && Entries(ctx, AnchorsOf(page)) == [e.value]
  {
    hide RoleOf, CandidateIdentity;
    OneAnchor(Unit, query, "");
    var anchors := AnchorsOf(OneLink(Unit, query, ""));
    assert anchors[..0] == [];
  }

  lemma RunOne(e: Entry)
    ensures Report(Run([e])).skipped == if e.role.Foreign? then 1 else 0
    ensures Report(Run([e])).malformed == if e.role.Unusable? then 1 else 0
    ensures e.role.Picture? ==> Report(Run([e])).groups == [Group("", "", e.cid, e.uid, e.link)]
  {
    assert [e][..0] == [];
    var st := Run([e]);
    assert Run([]) == START && st == Step(START, e);
    if e.role.Unusable? { assert st.candidates - st.valid == {e.id}; } else { assert st.candidates - st.valid == {}; }
  }

  /** The stored page has one entry with the same role. */
  lemma OneEntryStored(ctx: Context, query: seq<Pair>)
    ensures var entries := Entries(ctx, AnchorsOf(SanitizePage(OneLink(Unit, query, ""))));
      var e := Classify(ctx, Anchor(Link("", Unit, query, ""), ""));
      && e.Some? && |entries| == 1
      && entries[0].role == e.value.role && entries[0].cid == e.value.cid && entries[0].uid == e.value.uid
  {
    hide Classify, Numbered, NotBlank, AllCovered, SanitizePage, Entries;
    var page := OneLink(Unit, query, "");
    var names := PageIsRenamed(page);
    OneEntry(ctx, query);
    PageEntriesRenamed(ctx, page, names);
  }

  lemma {:induction false} SameRuns(a: Vehicle, x: string, b: Vehicle, y: string, anchors: seq<Anchor>)
    requires SameGroups(a, x, b, y)
    ensures Run(Entries(GroupContext(a, x), anchors)) == Run(Entries(GroupContext(b, y), anchors))
  {
    hide CandidateIdentity;
    if anchors != [] {
      var n := |anchors| - 1;
      SameRuns(a, x, b, y, anchors[..n]);
      SameStep(a, x, b, y, anchors[n], Run(Entries(GroupContext(a, x), anchors[..n])));
      EntriesSplit(GroupContext(a, x), anchors);
      EntriesSplit(GroupContext(b, y), anchors);
    }
  }

  lemma SameStep(a: Vehicle, x: string, b: Vehicle, y: string, anchor: Anchor, st: State)
    requires SameGroups(a, x, b, y)
    ensures var e, f := Classify(GroupContext(a, x), anchor), Classify(GroupContext(b, y), anchor);
      (e.Some? <==> f.Some?) && (e.Some? ==> Step(st, e.value) == Step(st, f.value))
  {
    hide CandidateIdentity, GroupText, AddPicture, AddNamed;
  }

  lemma EntriesSplit(ctx: Context, anchors: seq<Anchor>)
    requires anchors != []
    ensures var n := |anchors| - 1;
      Run(Entries(ctx, anchors)) == if Classify(ctx, anchors[n]).Some?
        then Step(Run(Entries(ctx, anchors[..n])), Classify(ctx, anchors[n]).value) else Run(Entries(ctx, anchors[..n]))
  {
    hide Classify, Step;
    var n := |anchors| - 1;
    var before := Entries(ctx, anchors[..n]);
    if Classify(ctx, anchors[n]).Some? {
      assert (before + [Classify(ctx, anchors[n]).value])[..|before|] == before;
    } else {
      assert before + [] == before;
    }
  }

  /** One picture on a page of its own tells the two contexts apart. */
  lemma PictureTells(live: Vehicle, x: string, stored: Vehicle, y: string)
    requires !SameGroups(live, x, stored, y)
    ensures exists page :: !GroupsReplay(GroupContext(live, x), GroupContext(stored, y), page)
  {
    hide Classify, SanitizePage, Run, Entries, Fits, SameVehicle;
    var v := if SameVehicle(live, stored) then live else Apart(live, stored);
    var query := PictureQuery(v, if SameVehicle(live, stored) then x else "");
    var a, b := GroupContext(live, x), GroupContext(stored, y);
    var page := OneLink(Unit, query, "");
    OneEntry(a, query);
    OneEntryStored(b, query);
    PictureEntry(live, x, v, if SameVehicle(live, stored) then x else "");
    PictureEntry(stored, y, v, if SameVehicle(live, stored) then x else "");
    OwnLinkFits(live, stored);
    var e, f := Entries(a, AnchorsOf(page))[0], Entries(b, AnchorsOf(SanitizePage(page)))[0];
    RunOne(e);
    RunOne(f);
    assert Entries(a, AnchorsOf(page)) == [e] && Entries(b, AnchorsOf(SanitizePage(page))) == [f];
    if e.role.Picture? && f.role.Picture? {
      var g, h := ParseGroups(a, AnchorsOf(page)).groups[0], ParseGroups(b, AnchorsOf(SanitizePage(page))).groups[0];
      assert g.cid == e.cid && h.cid == f.cid && PublicGroupOf(g) != PublicGroupOf(h);
    }
    assert !GroupsReplay(a, b, page);
  }

  lemma OwnLinkFits(a: Vehicle, b: Vehicle)
    requires SameVehicle(a, b) ==> a.vid != ""
    ensures SameVehicle(a, b) ==> Fits(a, a) && Fits(b, a)
  {
  }

  /** Group pages replay with the stored context exactly when vehicle id and, unless that is blank, brand
      and category id are the live ones. */
  lemma GroupsReplayIff(live: Vehicle, x: string, stored: Vehicle, y: string)
    ensures (forall page :: GroupsReplay(GroupContext(live, x), GroupContext(stored, y), page))
       <==> SameGroups(live, x, stored, y)
  {
    hide SanitizePage, Run, Entries, SameGroups;
    if SameGroups(live, x, stored, y) {
      forall page ensures GroupsReplay(GroupContext(live, x), GroupContext(stored, y), page) {
        ReplayPreservesGroups(GroupContext(stored, y), page);
        SameRuns(live, x, stored, y, AnchorsOf(page));
      }
    } else {
      PictureTells(live, x, stored, y);
    }
  }
}
