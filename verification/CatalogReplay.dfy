/**
Sanitised replay of the model, category and vehicle parsers.  Model and category pages replay
whenever they parsed without faults; vehicle pages do exactly when no two links that carry no
request value become equal although they stand for different specifications.
*/
module CatalogReplay {
  import opened Wrappers
  import opened Links
  import opened Sanitizer
  import opened GroupParse
  import opened GroupReplay
  import opened CatalogParse

  // ---------------------------------------------------------------- renamed sets of identities

  ghost predicate IdsRenamed(ids: set<Identity>, renamed: set<Identity>, token: nat, names: Aliases) {
    && (forall r :: r in renamed ==> exists id :: id in ids && IdRenamed(id, r, token, names))
    && (forall id :: id in ids ==> exists r :: r in renamed && IdRenamed(id, r, token, names))
  }

  /** Candidates that all had a usable peer still have one, even if identities were merged. */
  lemma ReconciledStaysSet(candidates: set<Identity>, valid: set<Identity>, c: set<Identity>, v: set<Identity>,
                           token: nat, names: Aliases)
    requires Numbered(names) && IdsRenamed(candidates, c, token, names) && IdsRenamed(valid, v, token, names)
    requires |candidates - valid| == 0
    ensures |c - v| == 0
  {
    hide Numbered, IdRenamed;
    assert candidates - valid == {};
    forall r | r in c ensures r in v {
      var id :| id in candidates && IdRenamed(id, r, token, names);
      assert id !in candidates - valid;
      var s :| s in v && IdRenamed(id, s, token, names);
      RenamedIdsAgree(id, id, r, s, token, names);
    }
    assert c - v == {};
  }

  // ---------------------------------------------------------------- renamed anchors

  ghost predicate AnchorRenamed(a: Anchor, r: Anchor, names: Aliases) {
    r == Anchor(Rename(a.link, names), a.text) && Covers(a.link.query, names)
  }

  ghost predicate AnchorsRenamed(anchors: seq<Anchor>, renamed: seq<Anchor>, names: Aliases) {
    |renamed| == |anchors| && forall i :: 0 <= i < |anchors| ==> AnchorRenamed(anchors[i], renamed[i], names)
  }

  lemma {:induction false} PageAnchorsRenamed(page: seq<Element>, names: Aliases)
    requires AllCovered(page, names)
    ensures AnchorsRenamed(AnchorsOf(page), AnchorsOf(RenamePage(page, names)), names)
  {
    hide Covers, Rename;
    if page != [] {
      var n := |page| - 1;
      assert page == page[..n] + [page[n]] && page[n] in page;
      assert RenamePage(page, names)[..n] == RenamePage(page[..n], names);
      PageAnchorsRenamed(page[..n], names);
    }
  }

  lemma KeysParsed()
    ensures ParserKeys(MODEL_KEYS, 2) && ParserKeys(CATEGORY_KEYS, 1) && ParserKeys(VEHICLE_KEYS, 1)
    ensures IsParserKey("c") && IsParserKey("vid") && IsParserKey("cid") && IsParserKey("cname") && IsParserKey("model")
    ensures "c" != "ssd" && "vid" != "ssd" && "cid" != "ssd" && "cname" != "ssd"
  {
    assert "c" in PUBLIC_KEYS && "vid" in PUBLIC_KEYS && "cid" in PUBLIC_KEYS && "cname" in PUBLIC_KEYS
      && "model" in PUBLIC_KEYS;
    SsdIsNotPublic();
  }

  // ---------------------------------------------------------------- models

  lemma ModelLinkRenamed(brand: string, a: Anchor, r: Anchor, names: Aliases)
    requires NotBlank(names) && AnchorRenamed(a, r, names)
    ensures IsModelLink(brand, r) <==> IsModelLink(brand, a)
    ensures IdRenamed(ModelIdentity(a.link), ModelIdentity(r.link), 2, names)
  {
    hide Covers, NotBlank, Qs, IsParserKey, CandidateIdentity, IdRenamed, ParserKeys;
    KeysParsed();
    QsRenamed(a.link, names, "c");
    IdentityIsRenamed(a.link, names, MODEL_KEYS, ["model"], 2);
  }

  lemma ModelIdsRenamed(brand: string, anchors: seq<Anchor>, renamed: seq<Anchor>, names: Aliases, texts: bool)
    requires NotBlank(names) && AnchorsRenamed(anchors, renamed, names)
    ensures IdsRenamed(ModelCandidates(brand, anchors, texts), ModelCandidates(brand, renamed, texts), 2, names)
  {
    hide NotBlank, AnchorRenamed, IsModelLink, ModelIdentity, IdRenamed;
    var ids, rs := ModelCandidates(brand, anchors, texts), ModelCandidates(brand, renamed, texts);
    forall r | r in rs ensures exists id :: id in ids && IdRenamed(id, r, 2, names) {
      var x :| x in renamed && IsModelLink(brand, x) && (texts ==> x.text != "") && r == ModelIdentity(x.link);
      var i :| 0 <= i < |renamed| && renamed[i] == x;
      SameText(anchors[i], x, names);
      ModelLinkRenamed(brand, anchors[i], x, names);
      assert anchors[i] in anchors;
      assert ModelIdentity(anchors[i].link) in ids;
    }
    forall id | id in ids ensures exists r :: r in rs && IdRenamed(id, r, 2, names) {
      var a :| a in anchors && IsModelLink(brand, a) && (texts ==> a.text != "") && id == ModelIdentity(a.link);
      var i :| 0 <= i < |anchors| && anchors[i] == a;
      SameText(a, renamed[i], names);
      ModelLinkRenamed(brand, a, renamed[i], names);
      assert renamed[i] in renamed;
      assert ModelIdentity(renamed[i].link) in rs;
    }
  }

  lemma SameText(a: Anchor, r: Anchor, names: Aliases)
    requires AnchorRenamed(a, r, names)
    ensures r.text == a.text && r.link == Rename(a.link, names) && Covers(a.link.query, names)
  {
  }

  datatype PublicModel = PublicModel(name: string, url: PublicUrl)

  function PublicModelOf(m: ModelRecord): PublicModel { PublicModel(m.name, PublicUrlOf(m.link)) }

  lemma PublicUrlKept(link: Link, names: Aliases)
    ensures PublicUrlOf(Rename(link, names)) == PublicUrlOf(link)
  {
    PublicPairsKept(link.query, names);
  }

  lemma {:induction false} ModelRecordsKept(brand: string, anchors: seq<Anchor>, renamed: seq<Anchor>, names: Aliases)
    requires NotBlank(names) && AnchorsRenamed(anchors, renamed, names)
    ensures var live, replay := ModelRecords(brand, anchors), ModelRecords(brand, renamed);
      |replay| == |live| && forall i :: 0 <= i < |live| ==> PublicModelOf(replay[i]) == PublicModelOf(live[i])
  {
    hide NotBlank, AnchorRenamed, IsModelLink, PublicUrlOf;
    if anchors != [] {
      var n := |anchors| - 1;
      ModelRecordsKept(brand, anchors[..n], renamed[..n], names);
      ModelLinkRenamed(brand, anchors[n], renamed[n], names);
      SameText(anchors[n], renamed[n], names);
      PublicUrlKept(anchors[n].link, names);
    }
  }

  /** Model pages: the stored page gives the same records, and no fault appears that was not there. */
  lemma ReplayPreservesModels(brand: string, page: seq<Element>)
    ensures var live, replay := AnchorsOf(page), AnchorsOf(SanitizePage(page));
      && (ModelsMalformed(brand, live) == 0 ==> ModelsMalformed(brand, replay) == 0)
      && |ModelRecords(brand, replay)| == |ModelRecords(brand, live)|
      && forall i :: 0 <= i < |ModelRecords(brand, live)| ==>
           PublicModelOf(ModelRecords(brand, replay)[i]) == PublicModelOf(ModelRecords(brand, live)[i])
  {
    hide Numbered, NotBlank, AllCovered, SanitizePage, ModelCandidates, ModelRecords, PublicModelOf, IdsRenamed,
         AnchorsRenamed;
    var names := PageIsRenamed(page);
    PageAnchorsRenamed(page, names);
    var live, replay := AnchorsOf(page), AnchorsOf(SanitizePage(page));
    ModelRecordsKept(brand, live, replay, names);
    ModelIdsRenamed(brand, live, replay, names, false);
    ModelIdsRenamed(brand, live, replay, names, true);
    if ModelsMalformed(brand, live) == 0 {
      ReconciledStaysSet(ModelCandidates(brand, live, false), ModelCandidates(brand, live, true),
                         ModelCandidates(brand, replay, false), ModelCandidates(brand, replay, true), 2, names);
    }
  }

  // ---------------------------------------------------------------- categories

  ghost predicate RecordRenamed(c: CategoryRecord, r: CategoryRecord, names: Aliases) {
    r == c.(link := Rename(c.link, names)) && Covers(c.link.query, names)
  }

  ghost predicate CategoriesRenamed(st: Categories, r: Categories, names: Aliases) {
    && r.seen == st.seen && r.clashes == st.clashes && r.skipped == st.skipped
    && IdsRenamed(st.candidates, r.candidates, 1, names) && IdsRenamed(st.valid, r.valid, 1, names)
    && |r.records| == |st.records|
    && forall i :: 0 <= i < |st.records| ==> RecordRenamed(st.records[i], r.records[i], names)
  }

  lemma IdsRenamedAdd(ids: set<Identity>, renamed: set<Identity>, id: Identity, r: Identity, token: nat, names: Aliases)
    requires IdsRenamed(ids, renamed, token, names) && IdRenamed(id, r, token, names)
    ensures IdsRenamed(ids + {id}, renamed + {r}, token, names)
  {
    hide IdRenamed;
  }

  lemma CategoryLinkRenamed(ctx: VehicleContext, a: Anchor, r: Anchor, names: Aliases)
    requires NotBlank(names) && AnchorRenamed(a, r, names)
    ensures IsCategoryContext(ctx, r.link) <==> IsCategoryContext(ctx, a.link)
    ensures Qs(r.link, "cid") == Qs(a.link, "cid") && CategoryName(ctx, r) == CategoryName(ctx, a)
    ensures IdRenamed(CategoryIdentity(a.link), CategoryIdentity(r.link), 1, names)
    ensures r.link.endpoint == a.link.endpoint
  {
    hide Covers, NotBlank, Qs, IsParserKey, CandidateIdentity, IdRenamed, ParserKeys;
    KeysParsed();
    QsRenamed(a.link, names, "c");
    QsRenamed(a.link, names, "vid");
    QsRenamed(a.link, names, "cid");
    QsRenamed(a.link, names, "cname");
    IdentityIsRenamed(a.link, names, CATEGORY_KEYS, ["cid"], 1);
  }

  lemma AddCategoryRenamed(st: Categories, r: Categories, id: Identity, s: Identity, cid: string, name: string,
                           link: Link, names: Aliases)
    requires CategoriesRenamed(st, r, names) && IdRenamed(id, s, 1, names) && Covers(link.query, names)
    ensures CategoriesRenamed(AddCategory(st, id, cid, name, link), AddCategory(r, s, cid, name, Rename(link, names)),
                              names)
  {
    hide IdRenamed, IdsRenamed, Covers, Rename;
    IdsRenamedAdd(st.valid, r.valid, id, s, 1, names);
  }

  lemma CategoryStepRenamed(ctx: VehicleContext, st: Categories, r: Categories, a: Anchor, b: Anchor, names: Aliases)
    requires NotBlank(names) && CategoriesRenamed(st, r, names) && AnchorRenamed(a, b, names)
    ensures CategoriesRenamed(CategoryStep(ctx, st, a), CategoryStep(ctx, r, b), names)
  {
    hide NotBlank, IdRenamed, IdsRenamed, Rename, Covers, RecordRenamed, CategoryName, CategoryIdentity, AddCategory;
    CategoryLinkRenamed(ctx, a, b, names);
    if a.link.endpoint.VehiclePage? && IsCategoryContext(ctx, a.link) {
      var id, s := CategoryIdentity(a.link), CategoryIdentity(b.link);
      IdsRenamedAdd(st.candidates, r.candidates, id, s, 1, names);
      if a.text != "" {
        AddCategoryRenamed(st.(candidates := st.candidates + {id}), r.(candidates := r.candidates + {s}), id, s,
                           Qs(a.link, "cid").value, CategoryName(ctx, a), a.link, names);
      }
    }
  }

  lemma {:induction false} RunCategoriesRenamed(ctx: VehicleContext, anchors: seq<Anchor>, renamed: seq<Anchor>,
                                                names: Aliases)
    requires NotBlank(names) && AnchorsRenamed(anchors, renamed, names)
    ensures CategoriesRenamed(RunCategories(ctx, anchors), RunCategories(ctx, renamed), names)
  {
    hide NotBlank, AnchorRenamed, CategoryStep, RecordRenamed;
    if anchors != [] {
      var n := |anchors| - 1;
      RunCategoriesRenamed(ctx, anchors[..n], renamed[..n], names);
      CategoryStepRenamed(ctx, RunCategories(ctx, anchors[..n]), RunCategories(ctx, renamed[..n]), anchors[n],
                          renamed[n], names);
    }
  }

  datatype PublicCategory = PublicCategory(name: string, cid: string, vid: Option<string>, url: PublicUrl)

  function PublicCategoryOf(c: CategoryRecord): PublicCategory {
    PublicCategory(c.name, c.cid, Qs(c.link, "vid"), PublicUrlOf(c.link))
  }

  lemma RenamedCategoryIsPublic(c: CategoryRecord, r: CategoryRecord, names: Aliases)
    requires RecordRenamed(c, r, names) && NotBlank(names)
    ensures PublicCategoryOf(r) == PublicCategoryOf(c)
  {
    hide Covers, NotBlank, Qs, IsParserKey, PublicUrlOf;
    KeysParsed();
    QsRenamed(c.link, names, "vid");
    PublicUrlKept(c.link, names);
  }

  /** Category pages: same records, same skipped count, and no new fault. */
  lemma ReplayPreservesCategories(ctx: VehicleContext, page: seq<Element>)
    ensures var live, replay := RunCategories(ctx, AnchorsOf(page)), RunCategories(ctx, AnchorsOf(SanitizePage(page)));
      && (CategoriesMalformed(live) == 0 ==> CategoriesMalformed(replay) == 0)
      && replay.skipped == live.skipped && |replay.records| == |live.records|
      && forall i :: 0 <= i < |live.records| ==>
          PublicCategoryOf(replay.records[i]) == PublicCategoryOf(live.records[i])
  {
    hide Numbered, NotBlank, AllCovered, SanitizePage, RunCategories, PublicCategoryOf, IdsRenamed, AnchorsRenamed,
         RecordRenamed;
    var names := PageIsRenamed(page);
    PageAnchorsRenamed(page, names);
    RunCategoriesRenamed(ctx, AnchorsOf(page), AnchorsOf(SanitizePage(page)), names);
    var live, replay := RunCategories(ctx, AnchorsOf(page)), RunCategories(ctx, AnchorsOf(SanitizePage(page)));
    forall i | 0 <= i < |live.records|
      ensures PublicCategoryOf(replay.records[i]) == PublicCategoryOf(live.records[i])
    {
      RenamedCategoryIsPublic(live.records[i], replay.records[i], names);
    }
    if CategoriesMalformed(live) == 0 {
      ReconciledStaysSet(live.candidates, live.valid, replay.candidates, replay.valid, 1, names);
    }
  }
}
