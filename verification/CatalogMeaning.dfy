/**
What the pages above the group level say, written on their links: the models of a brand, the
categories of a vehicle and the vehicles of a model, and how many of their links are at fault.
*/
module CatalogMeaning {
  import opened Wrappers
  import opened Links
  import opened LinkMeaning
  import opened GroupParse
  import opened CatalogParse

  // ---------------------------------------------------------------- models of a brand

  ghost predicate ModelLink(brand: string, a: Anchor) { a.link.endpoint == Pick && OfBrand(a.link, brand) }

  ghost predicate ModelAt(brand: string, anchors: seq<Anchor>, n: int) {
    0 <= n < |anchors| && ModelLink(brand, anchors[n]) && anchors[n].text != ""
  }

  /** The records are the model links with a text, in page order. */
  ghost predicate ModelsListed(brand: string, anchors: seq<Anchor>, models: seq<ModelRecord>, places: seq<int>) {
    && Increasing(places) && |places| == |models|
    && (forall n :: n in places <==> ModelAt(brand, anchors, n))
    && (forall i :: 0 <= i < |models| && ModelAt(brand, anchors, places[i]) ==>
          models[i].name == anchors[places[i]].text && models[i].link == anchors[places[i]].link)
  }

  ghost predicate HasModelPeer(brand: string, anchors: seq<Anchor>, link: Link) {
    exists n :: ModelAt(brand, anchors, n) && SameTarget(link, anchors[n].link, ["c", "model", "ssd"], ["model"])
  }

  /** The model links whose target no link with a text leads to. */
  ghost function LostModels(brand: string, anchors: seq<Anchor>): set<Link> {
    set a | a in anchors && ModelLink(brand, a) && !HasModelPeer(brand, anchors, a.link) :: a.link
  }

  lemma ModelLinkIff(brand: string, a: Anchor)
    ensures ModelLink(brand, a) <==> IsModelLink(brand, a)
  {
    OfBrandIff(a.link, brand);
  }

  lemma ModelKeys()
    ensures MODEL_KEYS == ["c", "model", "ssd"] && forall key :: key in ["model"] ==> key in MODEL_KEYS
  {
    assert MODEL_KEYS[1] == "model";
  }

  lemma {:induction false} ModelPlaces(brand: string, anchors: seq<Anchor>) returns (places: seq<int>)
    ensures ModelsListed(brand, anchors, ModelRecords(brand, anchors), places)
  {
    hide ModelLink, IsModelLink;
    if anchors == [] {
      places := [];
    } else {
      var n := |anchors| - 1;
      var before := ModelPlaces(brand, anchors[..n]);
      ModelLinkIff(brand, anchors[n]);
      places := before + if ModelAt(brand, anchors, n) then [n] else [];
      forall k ensures k in places <==> ModelAt(brand, anchors, k) {
        assert k != n ==> (ModelAt(brand, anchors, k) <==> ModelAt(brand, anchors[..n], k));
      }
      forall i | 0 <= i < |before| ensures before[i] < n { assert before[i] in before; }
    }
  }

  lemma LostModelsAre(brand: string, anchors: seq<Anchor>)
    ensures ModelCandidates(brand, anchors, false) - ModelCandidates(brand, anchors, true)
         == Identities(LostModels(brand, anchors), ["c", "model", "ssd"], ["model"])
  {
    hide ModelLink, IsModelLink, CandidateIdentity, SameTarget;
    var lost := Identities(LostModels(brand, anchors), ["c", "model", "ssd"], ["model"]);
    ModelKeys();
    forall a ensures ModelLink(brand, a) <==> IsModelLink(brand, a) { ModelLinkIff(brand, a); }
    forall a, b
      ensures SameTarget(a, b, ["c", "model", "ssd"], ["model"]) <==> ModelIdentity(a) == ModelIdentity(b)
    {
      SameTargetIff(a, b, ["c", "model", "ssd"], ["model"]);
    }
    forall link ensures HasModelPeer(brand, anchors, link)
                   <==> ModelIdentity(link) in ModelCandidates(brand, anchors, true) {
      ModelPeerIff(brand, anchors, link);
    }
    hide HasModelPeer;
  }

  lemma ModelPeerIff(brand: string, anchors: seq<Anchor>, link: Link)
    ensures HasModelPeer(brand, anchors, link) <==> ModelIdentity(link) in ModelCandidates(brand, anchors, true)
  {
    hide ModelLink, IsModelLink, CandidateIdentity, SameTarget;
    ModelKeys();
    forall a ensures ModelLink(brand, a) <==> IsModelLink(brand, a) { ModelLinkIff(brand, a); }
    forall b
      ensures SameTarget(link, b, ["c", "model", "ssd"], ["model"]) <==> ModelIdentity(link) == ModelIdentity(b)
    {
      SameTargetIff(link, b, ["c", "model", "ssd"], ["model"]);
    }
    if ModelIdentity(link) in ModelCandidates(brand, anchors, true) {
      var a :| a in anchors && IsModelLink(brand, a) && a.text != "" && ModelIdentity(a.link) == ModelIdentity(link);
      var n :| 0 <= n < |anchors| && anchors[n] == a;
      assert ModelAt(brand, anchors, n);
    }
  }

  /** Models: the links with a text in page order; faults: the targets that only links without one lead to. */
  lemma ModelsMean(brand: string, anchors: seq<Anchor>)
    ensures exists places :: ModelsListed(brand, anchors, ModelRecords(brand, anchors), places)
    ensures CountsTargets(ModelsMalformed(brand, anchors), LostModels(brand, anchors), ["c", "model", "ssd"], ["model"])
  {
    hide ModelsListed, LostModels, ModelCandidates, CountsTargets, Identities;
    var places := ModelPlaces(brand, anchors);
    ModelKeys();
    LostModelsAre(brand, anchors);
    TargetsAreCounted(LostModels(brand, anchors), ["c", "model", "ssd"], ["model"]);
  }

  // ---------------------------------------------------------------- categories of a vehicle

  /** A link to a page of this vehicle that asks for a category. */
  ghost predicate CategoryLink(ctx: VehicleContext, link: Link) {
    && link.endpoint == VehiclePage && OfBrand(link, ctx.brand) && OfVehicle(link, ctx.expectedVid)
    && !Silent(link, "cid")
  }

  /** A link to a vehicle page that is none. */
  ghost predicate Stray(ctx: VehicleContext, link: Link) { link.endpoint == VehiclePage && !CategoryLink(ctx, link) }

  ghost function Strays(ctx: VehicleContext, anchors: seq<Anchor>): set<int> {
    set n | 0 <= n < |anchors| && Stray(ctx, anchors[n].link)
  }

  /** The name a category link with a text gives: the one it asks for, or else its text. */
  ghost predicate NameGiven(ctx: VehicleContext, a: Anchor, name: string) {
    if Silent(a.link, "cname") then name == a.text else exists c :: Says(a.link, "cname", c) && name == ctx.unquote(c)
  }

  ghost predicate Names(ctx: VehicleContext, a: Anchor, cid: string, name: string) {
    CategoryLink(ctx, a.link) && Says(a.link, "cid", cid) && a.text != "" && NameGiven(ctx, a, name)
  }

  ghost predicate NamesAt(ctx: VehicleContext, anchors: seq<Anchor>, n: int, cid: string, name: string) {
    0 <= n < |anchors| && Names(ctx, anchors[n], cid, name)
  }

  ghost predicate NamedBefore(ctx: VehicleContext, anchors: seq<Anchor>, n: int, cid: string) {
    exists m, name :: m < n && NamesAt(ctx, anchors, m, cid, name)
  }

  /** Link `n` is the first to name the category. */
  ghost predicate FirstNames(ctx: VehicleContext, anchors: seq<Anchor>, n: int, cid: string, name: string) {
    NamesAt(ctx, anchors, n, cid, name) && !NamedBefore(ctx, anchors, n, cid)
  }

  /** Link `n` names the category otherwise than the first link did. */
  ghost predicate Renames(ctx: VehicleContext, anchors: seq<Anchor>, n: int) {
    exists cid, name, m, first ::
      m < n && NamesAt(ctx, anchors, n, cid, name) && FirstNames(ctx, anchors, m, cid, first) && first != name
  }

  ghost function Renamings(ctx: VehicleContext, anchors: seq<Anchor>): set<int> {
    set n | 0 <= n < |anchors| && Renames(ctx, anchors, n)
  }

  /** Link `n` names its category as its first link does. */
  ghost predicate Confirmed(ctx: VehicleContext, anchors: seq<Anchor>, n: int) {
    exists cid, name, m :: m <= n && NamesAt(ctx, anchors, n, cid, name) && FirstNames(ctx, anchors, m, cid, name)
  }

  ghost predicate HasCategoryPeer(ctx: VehicleContext, anchors: seq<Anchor>, link: Link) {
    exists n :: 0 <= n < |anchors| && Confirmed(ctx, anchors, n)
      && SameTarget(link, anchors[n].link, ["c", "ssd", "vid", "cid"], ["cid"])
  }

  /** The category links whose target no confirmed link leads to. */
  ghost function LostCategories(ctx: VehicleContext, anchors: seq<Anchor>): set<Link> {
    set a | a in anchors && CategoryLink(ctx, a.link) && !HasCategoryPeer(ctx, anchors, a.link) :: a.link
  }

  /** One record for each category, from the first link that names it, in page order. */
  ghost predicate CategoriesListed(ctx: VehicleContext, anchors: seq<Anchor>, records: seq<CategoryRecord>,
                                   places: seq<int>)
  {
    && Increasing(places) && |places| == |records|
    && (forall i :: 0 <= i < |places| ==> RecordAt(ctx, anchors, places[i], records[i]))
    && (forall n, cid, name :: FirstNames(ctx, anchors, n, cid, name) ==> n in places)
  }

  ghost predicate RecordAt(ctx: VehicleContext, anchors: seq<Anchor>, n: int, r: CategoryRecord) {
    FirstNames(ctx, anchors, n, r.cid, r.name) && r.link == anchors[n].link
  }

  // ---------------------------------------------------------------- what one link adds

  /** The category and the name that a link gives, as the parser computes them. */
  function GivenBy(ctx: VehicleContext, a: Anchor): Option<(string, string)> {
    if a.link.endpoint.VehiclePage? && IsCategoryContext(ctx, a.link) && a.text != ""
    then Some((Qs(a.link, "cid").value, CategoryName(ctx, a))) else None
  }

  lemma CategoryLinkIff(ctx: VehicleContext, a: Anchor)
    ensures CategoryLink(ctx, a.link) <==> a.link.endpoint.VehiclePage? && IsCategoryContext(ctx, a.link)
    ensures forall cid, name :: Names(ctx, a, cid, name) <==> GivenBy(ctx, a) == Some((cid, name))
  {
    hide Silent, Says, Qs, OfBrand, OfVehicle, ContextMismatch;
    OfBrandIff(a.link, ctx.brand);
    OfVehicleIff(a.link, ctx.expectedVid);
    forall key, value
      ensures Says(a.link, key, value) <==> Qs(a.link, key) == Some(value)
      ensures Silent(a.link, key) <==> Qs(a.link, key) == None
    {
      SaysIff(a.link, key, value);
    }
    assert Silent(a.link, "cid") <==> Qs(a.link, "cid") == None by { SaysIff(a.link, "cid", ""); }
    assert Silent(a.link, "cname") <==> Qs(a.link, "cname") == None by { SaysIff(a.link, "cname", ""); }
  }

  /** The dictionary and the two sets hold what the links read so far say. */
  ghost predicate SeenMeans(ctx: VehicleContext, anchors: seq<Anchor>, seen: map<string, string>) {
    && (forall cid, name, n :: NamesAt(ctx, anchors, n, cid, name) ==> cid in seen)
    && (forall cid :: cid in seen ==> exists n :: FirstNames(ctx, anchors, n, cid, seen[cid]))
  }

  lemma NamesNext(ctx: VehicleContext, anchors: seq<Anchor>, a: Anchor)
    ensures forall n, cid, name :: n < |anchors| ==>
      (NamesAt(ctx, anchors + [a], n, cid, name) <==> NamesAt(ctx, anchors, n, cid, name))
    ensures forall cid, name :: NamesAt(ctx, anchors + [a], |anchors|, cid, name) <==> Names(ctx, a, cid, name)
    ensures forall n, cid :: n <= |anchors| ==>
      (NamedBefore(ctx, anchors + [a], n, cid) <==> NamedBefore(ctx, anchors, n, cid))
    ensures forall n, cid, name :: n < |anchors| ==>
      (FirstNames(ctx, anchors + [a], n, cid, name) <==> FirstNames(ctx, anchors, n, cid, name))
  {
    hide Names;
  }

  lemma FirstIsUnique(ctx: VehicleContext, anchors: seq<Anchor>, m: int, n: int, cid: string, x: string, y: string)
    requires FirstNames(ctx, anchors, m, cid, x) && FirstNames(ctx, anchors, n, cid, y)
    ensures m == n && x == y
  {
    hide Names;
    CategoryLinkIff(ctx, anchors[m]);
  }

  lemma BeforeIsSeen(ctx: VehicleContext, anchors: seq<Anchor>, a: Anchor, seen: map<string, string>, cid: string)
    requires SeenMeans(ctx, anchors, seen)
    ensures NamedBefore(ctx, anchors + [a], |anchors|, cid) <==> cid in seen
  {
    hide Names;
    NamesNext(ctx, anchors, a);
    if cid in seen {
      var m :| FirstNames(ctx, anchors, m, cid, seen[cid]);
      assert NamesAt(ctx, anchors + [a], m, cid, seen[cid]);
    }
  }

  /** The first link that names a category gave the name in the dictionary. */
  lemma FirstIsSeen(ctx: VehicleContext, anchors: seq<Anchor>, seen: map<string, string>, m: int, cid: string,
                    first: string)
    requires SeenMeans(ctx, anchors, seen) && FirstNames(ctx, anchors, m, cid, first)
    ensures cid in seen && seen[cid] == first
  {
    hide NamedBefore;
    var n :| FirstNames(ctx, anchors, n, cid, seen[cid]);
    FirstIsUnique(ctx, anchors, m, n, cid, first, seen[cid]);
  }

  lemma LastNames(ctx: VehicleContext, anchors: seq<Anchor>, a: Anchor, cid: string, name: string)
    ensures NamesAt(ctx, anchors + [a], |anchors|, cid, name) <==> GivenBy(ctx, a) == Some((cid, name))
  {
    hide Names, GivenBy;
    NamesNext(ctx, anchors, a);
    CategoryLinkIff(ctx, a);
  }

  lemma LastFirstNames(ctx: VehicleContext, anchors: seq<Anchor>, a: Anchor, seen: map<string, string>, cid: string,
                       name: string)
    requires SeenMeans(ctx, anchors, seen)
    ensures FirstNames(ctx, anchors + [a], |anchors|, cid, name)
       <==> GivenBy(ctx, a) == Some((cid, name)) && cid !in seen
  {
    hide NamesAt, NamedBefore, GivenBy, SeenMeans;
    BeforeIsSeen(ctx, anchors, a, seen, cid);
    LastNames(ctx, anchors, a, cid, name);
  }

  lemma LastRenames(ctx: VehicleContext, anchors: seq<Anchor>, a: Anchor, seen: map<string, string>)
    requires SeenMeans(ctx, anchors, seen)
    ensures var g := GivenBy(ctx, a);
      Renames(ctx, anchors + [a], |anchors|) <==> g.Some? && g.value.0 in seen && seen[g.value.0] != g.value.1
  {
    hide NamesAt, NamedBefore, FirstNames, GivenBy;
    var all, n, g := anchors + [a], |anchors|, GivenBy(ctx, a);
    NamesNext(ctx, anchors, a);
    if Renames(ctx, all, n) {
      var cid, name, m, first :|
        m < n && NamesAt(ctx, all, n, cid, name) && FirstNames(ctx, all, m, cid, first) && first != name;
      LastNames(ctx, anchors, a, cid, name);
      FirstIsSeen(ctx, anchors, seen, m, cid, first);
    }
    if g.Some? && g.value.0 in seen && seen[g.value.0] != g.value.1 {
      var cid := g.value.0;
      var m :| FirstNames(ctx, anchors, m, cid, seen[cid]);
      LastNames(ctx, anchors, a, cid, g.value.1);
      FirstInside(ctx, anchors, m, cid, seen[cid]);
      assert FirstNames(ctx, all, m, cid, seen[cid]);
    }
  }

  lemma FirstInside(ctx: VehicleContext, anchors: seq<Anchor>, m: int, cid: string, name: string)
    requires FirstNames(ctx, anchors, m, cid, name)
    ensures 0 <= m < |anchors|
  {
  }

  lemma LastConfirmed(ctx: VehicleContext, anchors: seq<Anchor>, a: Anchor, seen: map<string, string>)
    requires SeenMeans(ctx, anchors, seen)
    ensures var g := GivenBy(ctx, a);
      Confirmed(ctx, anchors + [a], |anchors|) <==> g.Some? && (g.value.0 in seen ==> seen[g.value.0] == g.value.1)
  {
    hide NamesAt, NamedBefore, FirstNames, GivenBy;
    var all, n, g := anchors + [a], |anchors|, GivenBy(ctx, a);
    NamesNext(ctx, anchors, a);
    if Confirmed(ctx, all, n) {
      var cid, name, m :| m <= n && NamesAt(ctx, all, n, cid, name) && FirstNames(ctx, all, m, cid, name);
      LastNames(ctx, anchors, a, cid, name);
      if m < n {
        FirstIsSeen(ctx, anchors, seen, m, cid, name);
      } else {
        LastFirstNames(ctx, anchors, a, seen, cid, name);
      }
    }
    if g.Some? {
      var (cid, name) := g.value;
      LastNames(ctx, anchors, a, cid, name);
      LastFirstNames(ctx, anchors, a, seen, cid, name);
      if cid in seen && seen[cid] == name {
        var m :| FirstNames(ctx, anchors, m, cid, seen[cid]);
        FirstInside(ctx, anchors, m, cid, name);
        assert FirstNames(ctx, all, m, cid, name);
      }
    }
  }

  lemma EarlierUnchanged(ctx: VehicleContext, anchors: seq<Anchor>, a: Anchor, k: int)
    requires k < |anchors|
    ensures Renames(ctx, anchors + [a], k) <==> Renames(ctx, anchors, k)
    ensures Confirmed(ctx, anchors + [a], k) <==> Confirmed(ctx, anchors, k)
  {
    hide NamesAt, NamedBefore, FirstNames;
    NamesNext(ctx, anchors, a);
  }

  lemma SeenNext(ctx: VehicleContext, anchors: seq<Anchor>, a: Anchor, seen: map<string, string>)
    requires SeenMeans(ctx, anchors, seen)
    ensures var g := GivenBy(ctx, a);
      SeenMeans(ctx, anchors + [a], if g.Some? && g.value.0 !in seen then seen[g.value.0 := g.value.1] else seen)
  {
    hide NamedBefore, FirstNames, GivenBy, Names;
    var all, g := anchors + [a], GivenBy(ctx, a);
    var next := if g.Some? && g.value.0 !in seen then seen[g.value.0 := g.value.1] else seen;
    NamesNext(ctx, anchors, a);
    forall n, cid, name | NamesAt(ctx, all, n, cid, name) ensures cid in next {
      if n == |anchors| { LastNames(ctx, anchors, a, cid, name); }
      assert n < |anchors| ==> NamesAt(ctx, anchors, n, cid, name);
    }
    forall cid | cid in next ensures exists n :: FirstNames(ctx, all, n, cid, next[cid]) {
      if cid in seen {
        var m :| FirstNames(ctx, anchors, m, cid, seen[cid]);
        FirstInside(ctx, anchors, m, cid, seen[cid]);
        assert FirstNames(ctx, all, m, cid, next[cid]);
      } else {
        LastFirstNames(ctx, anchors, a, seen, cid, next[cid]);
      }
    }
  }

  // ---------------------------------------------------------------- the whole page

  ghost predicate CandidatesMean(ctx: VehicleContext, anchors: seq<Anchor>, candidates: set<Identity>) {
    forall id :: id in candidates <==> exists n ::
      0 <= n < |anchors| && CategoryLink(ctx, anchors[n].link) && CategoryIdentity(anchors[n].link) == id
  }

  ghost predicate ValidMeans(ctx: VehicleContext, anchors: seq<Anchor>, valid: set<Identity>) {
    forall id :: id in valid <==> exists n ::
      0 <= n < |anchors| && Confirmed(ctx, anchors, n) && CategoryIdentity(anchors[n].link) == id
  }

  ghost predicate RecordsMean(ctx: VehicleContext, anchors: seq<Anchor>, records: seq<CategoryRecord>) {
    exists places: seq<int> :: CategoriesListed(ctx, anchors, records, places)
  }

  ghost predicate LoopMeans(ctx: VehicleContext, anchors: seq<Anchor>, st: Categories) {
    && SeenMeans(ctx, anchors, st.seen) && RecordsMean(ctx, anchors, st.records)
    && st.skipped == |Strays(ctx, anchors)| && st.clashes == |Renamings(ctx, anchors)|
    && CandidatesMean(ctx, anchors, st.candidates) && ValidMeans(ctx, anchors, st.valid)
  }

  lemma RecordsStay(ctx: VehicleContext, anchors: seq<Anchor>, a: Anchor, records: seq<CategoryRecord>,
                    places: seq<int>)
    requires CategoriesListed(ctx, anchors, records, places)
    ensures Increasing(places) && |places| == |records|
    ensures forall i :: 0 <= i < |places| ==>
      0 <= places[i] < |anchors| && RecordAt(ctx, anchors + [a], places[i], records[i])
    ensures forall k, cid, name :: k < |anchors| && FirstNames(ctx, anchors + [a], k, cid, name) ==> k in places
  {
    hide NamedBefore, NamesAt, FirstNames;
    NamesNext(ctx, anchors, a);
    forall i | 0 <= i < |places|
      ensures 0 <= places[i] < |anchors| && RecordAt(ctx, anchors + [a], places[i], records[i])
    {
      FirstInside(ctx, anchors, places[i], records[i].cid, records[i].name);
    }
  }

  lemma RecordsNext(ctx: VehicleContext, anchors: seq<Anchor>, a: Anchor, seen: map<string, string>,
                    records: seq<CategoryRecord>)
    requires SeenMeans(ctx, anchors, seen) && RecordsMean(ctx, anchors, records)
    ensures var g := GivenBy(ctx, a);
      RecordsMean(ctx, anchors + [a],
                  if g.Some? && g.value.0 !in seen then records + [CategoryRecord(g.value.1, g.value.0, a.link)]
                  else records)
  {
    hide NamedBefore, NamesAt, GivenBy, FirstNames, SeenMeans, CategoriesListed;
    var all, n, g := anchors + [a], |anchors|, GivenBy(ctx, a);
    var places: seq<int> :| CategoriesListed(ctx, anchors, records, places);
    RecordsStay(ctx, anchors, a, records, places);
    if g.Some? && g.value.0 !in seen {
      LastFirstNames(ctx, anchors, a, seen, g.value.0, g.value.1);
      ListedMore(ctx, all, records, CategoryRecord(g.value.1, g.value.0, a.link), places);
    } else {
      forall cid, name ensures FirstNames(ctx, all, n, cid, name) <==> false {
        LastFirstNames(ctx, anchors, a, seen, cid, name);
      }
      assert !NewlyNamed(ctx, all, n);
      ListedSame(ctx, all, records, places);
    }
  }

  ghost predicate NewlyNamed(ctx: VehicleContext, anchors: seq<Anchor>, n: int) {
    exists cid, name :: FirstNames(ctx, anchors, n, cid, name)
  }

  lemma ListedMore(ctx: VehicleContext, all: seq<Anchor>, records: seq<CategoryRecord>, r: CategoryRecord,
                   places: seq<int>)
    requires Increasing(places) && |places| == |records| && all != []
    requires forall i :: 0 <= i < |places| ==>
      0 <= places[i] < |all| - 1 && RecordAt(ctx, all, places[i], records[i])
    requires forall k, cid, name :: k < |all| - 1 && FirstNames(ctx, all, k, cid, name) ==> k in places
    requires RecordAt(ctx, all, |all| - 1, r)
    ensures CategoriesListed(ctx, all, records + [r], places + [|all| - 1])
  {
    hide NamedBefore, NamesAt, RecordAt, FirstNames;
    var next := places + [|all| - 1];
    forall k, cid, name | FirstNames(ctx, all, k, cid, name) ensures k in next {
      FirstInside(ctx, all, k, cid, name);
      assert k == |all| - 1 ==> k == next[|places|];
    }
  }

  lemma ListedSame(ctx: VehicleContext, all: seq<Anchor>, records: seq<CategoryRecord>, places: seq<int>)
    requires Increasing(places) && |places| == |records| && all != []
    requires forall i :: 0 <= i < |places| ==>
      0 <= places[i] < |all| - 1 && RecordAt(ctx, all, places[i], records[i])
    requires forall k, cid, name :: k < |all| - 1 && FirstNames(ctx, all, k, cid, name) ==> k in places
    requires !NewlyNamed(ctx, all, |all| - 1)
    ensures CategoriesListed(ctx, all, records, places)
  {
    hide NamedBefore, NamesAt, RecordAt, FirstNames;
    forall k, cid, name | FirstNames(ctx, all, k, cid, name) ensures k in places {
      FirstInside(ctx, all, k, cid, name);
    }
  }

  lemma CandidatesNext(ctx: VehicleContext, anchors: seq<Anchor>, a: Anchor, candidates: set<Identity>)
    requires CandidatesMean(ctx, anchors, candidates)
    ensures CandidatesMean(ctx, anchors + [a],
                           if CategoryLink(ctx, a.link) then candidates + {CategoryIdentity(a.link)} else candidates)
  {
    hide CategoryLink, CategoryIdentity;
    var all, id := anchors + [a], CategoryIdentity(a.link);
    var next := if CategoryLink(ctx, a.link) then candidates + {id} else candidates;
    assert all[|anchors|] == a && forall n :: 0 <= n < |anchors| ==> all[n] == anchors[n];
  }

  lemma ValidNext(ctx: VehicleContext, anchors: seq<Anchor>, a: Anchor, valid: set<Identity>)
    requires ValidMeans(ctx, anchors, valid)
    ensures ValidMeans(ctx, anchors + [a],
                       if Confirmed(ctx, anchors + [a], |anchors|) then valid + {CategoryIdentity(a.link)} else valid)
  {
    hide Confirmed, CategoryIdentity;
    var all, id := anchors + [a], CategoryIdentity(a.link);
    assert all[|anchors|] == a && forall n :: 0 <= n < |anchors| ==> all[n] == anchors[n];
    forall k | k < |anchors| ensures Confirmed(ctx, all, k) <==> Confirmed(ctx, anchors, k) {
      EarlierUnchanged(ctx, anchors, a, k);
    }
  }

  lemma StraysNext(ctx: VehicleContext, anchors: seq<Anchor>, a: Anchor)
    ensures |Strays(ctx, anchors + [a])| == |Strays(ctx, anchors)| + if Stray(ctx, a.link) then 1 else 0
  {
    hide Stray;
    var all, n := anchors + [a], |anchors|;
    assert all[n] == a && forall k :: 0 <= k < n ==> all[k] == anchors[k];
    assert Strays(ctx, all) == Strays(ctx, anchors) + if Stray(ctx, a.link) then {n} else {};
  }

  lemma RenamingsNext(ctx: VehicleContext, anchors: seq<Anchor>, a: Anchor)
    ensures |Renamings(ctx, anchors + [a])|
         == |Renamings(ctx, anchors)| + if Renames(ctx, anchors + [a], |anchors|) then 1 else 0
  {
    hide Renames;
    var all, n := anchors + [a], |anchors|;
    var one: set<int> := if Renames(ctx, all, n) then {n} else {};
    forall k ensures k in Renamings(ctx, all) <==> k in Renamings(ctx, anchors) + one {
      if k < n { EarlierUnchanged(ctx, anchors, a, k); }
    }
    assert Renamings(ctx, all) == Renamings(ctx, anchors) + one;
    assert Renamings(ctx, anchors) !! one;
  }

  /** One round of the loop, told from what the link gives. */
  lemma CategoryStepIs(ctx: VehicleContext, st: Categories, a: Anchor)
    ensures var g, id, next := GivenBy(ctx, a), CategoryIdentity(a.link), CategoryStep(ctx, st, a);
      var opens := g.Some? && g.value.0 !in st.seen;
      && next.skipped == st.skipped + (if Stray(ctx, a.link) then 1 else 0)
      && next.candidates == (if CategoryLink(ctx, a.link) then st.candidates + {id} else st.candidates)
      && next.clashes ==
         st.clashes + (if g.Some? && g.value.0 in st.seen && st.seen[g.value.0] != g.value.1 then 1 else 0)
      && next.valid ==
         (if g.Some? && (g.value.0 in st.seen ==> st.seen[g.value.0] == g.value.1) then st.valid + {id} else st.valid)
      && next.seen == (if opens then st.seen[g.value.0 := g.value.1] else st.seen)
      && next.records ==
         (if opens then st.records + [CategoryRecord(g.value.1, g.value.0, a.link)] else st.records)
  {
    hide Silent, Says, Qs, OfBrand, OfVehicle, ContextMismatch, CategoryIdentity, CategoryName, IsCategoryContext,
         CategoryLink;
    CategoryLinkIff(ctx, a);
  }

  lemma LoopNext(ctx: VehicleContext, anchors: seq<Anchor>, a: Anchor, st: Categories)
    requires LoopMeans(ctx, anchors, st)
    ensures LoopMeans(ctx, anchors + [a], CategoryStep(ctx, st, a))
  {
    hide SeenMeans, RecordsMean, Strays, Renamings, CandidatesMean, ValidMeans, CategoryStep, GivenBy, CategoryLink,
         Renames, Confirmed, Stray, CategoryIdentity;
    SeenNext(ctx, anchors, a, st.seen);
    RecordsNext(ctx, anchors, a, st.seen, st.records);
    StraysNext(ctx, anchors, a);
    RenamingsNext(ctx, anchors, a);
    LastRenames(ctx, anchors, a, st.seen);
    LastConfirmed(ctx, anchors, a, st.seen);
    CandidatesNext(ctx, anchors, a, st.candidates);
    ValidNext(ctx, anchors, a, st.valid);
    CategoryStepIs(ctx, st, a);
  }

  lemma NothingLoops(ctx: VehicleContext)
    ensures LoopMeans(ctx, [], NO_CATEGORIES)
  {
    var none: seq<int> := [];
    assert CategoriesListed(ctx, [], [], none);
    assert Strays(ctx, []) == {} && Renamings(ctx, []) == {};
  }

  lemma {:induction false} CategoriesLoop(ctx: VehicleContext, anchors: seq<Anchor>)
    ensures LoopMeans(ctx, anchors, RunCategories(ctx, anchors))
  {
    hide LoopMeans, CategoryStep;
    if anchors == [] {
      NothingLoops(ctx);
    } else {
      var before := anchors[..|anchors| - 1];
      CategoriesLoop(ctx, before);
      LoopNext(ctx, before, anchors[|anchors| - 1], RunCategories(ctx, before));
      assert before + [anchors[|anchors| - 1]] == anchors;
    }
  }

  lemma CategoryKeys()
    ensures CATEGORY_KEYS == ["c", "ssd", "vid", "cid"] && forall key :: key in ["cid"] ==> key in CATEGORY_KEYS
  {
    assert CATEGORY_KEYS[3] == "cid";
  }

  lemma LostCategoriesAre(ctx: VehicleContext, anchors: seq<Anchor>, st: Categories)
    requires CandidatesMean(ctx, anchors, st.candidates) && ValidMeans(ctx, anchors, st.valid)
    ensures st.candidates - st.valid
         == Identities(LostCategories(ctx, anchors), ["c", "ssd", "vid", "cid"], ["cid"])
  {
    hide CategoryLink, Confirmed, CandidateIdentity, SameTarget;
    CategoryKeys();
    forall link ensures HasCategoryPeer(ctx, anchors, link) <==> CategoryIdentity(link) in st.valid {
      forall b ensures SameTarget(link, b, ["c", "ssd", "vid", "cid"], ["cid"])
                  <==> CategoryIdentity(link) == CategoryIdentity(b) {
        SameTargetIff(link, b, ["c", "ssd", "vid", "cid"], ["cid"]);
      }
    }
    hide HasCategoryPeer, ValidMeans;
    forall id | id in st.candidates - st.valid
      ensures id in Identities(LostCategories(ctx, anchors), ["c", "ssd", "vid", "cid"], ["cid"])
    {
      var n :| 0 <= n < |anchors| && CategoryLink(ctx, anchors[n].link) && CategoryIdentity(anchors[n].link) == id;
      assert anchors[n] in anchors && anchors[n].link in LostCategories(ctx, anchors);
    }
  }

  /** Categories: one record for each, from the link that names it first; skipped links are the strays;
      faults are the links that rename a category and the targets that only unconfirmed links lead to. */
  lemma CategoriesMean(ctx: VehicleContext, anchors: seq<Anchor>) returns (lost: nat)
    ensures var st := RunCategories(ctx, anchors);
      && (exists places: seq<int> :: CategoriesListed(ctx, anchors, st.records, places))
      && st.skipped == |Strays(ctx, anchors)|
      && CategoriesMalformed(st) == |Renamings(ctx, anchors)| + lost
    ensures CountsTargets(lost, LostCategories(ctx, anchors), ["c", "ssd", "vid", "cid"], ["cid"])
  {
    hide CategoriesListed, LostCategories, CountsTargets, Identities, Strays, Renamings, CandidatesMean, ValidMeans,
         SeenMeans;
    var st := RunCategories(ctx, anchors);
    CategoriesLoop(ctx, anchors);
    CategoryKeys();
    LostCategoriesAre(ctx, anchors, st);
    TargetsAreCounted(LostCategories(ctx, anchors), ["c", "ssd", "vid", "cid"], ["cid"]);
    lost := |st.candidates - st.valid|;
  }
}
