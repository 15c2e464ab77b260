/**
The parsers above the group level: models of a brand, vehicles of a model, categories of a vehicle.
All three reconcile candidate links with links that could be used; a candidate without a usable
peer is malformed.
*/
module CatalogParse {
  import opened Wrappers
  import opened Links
  import opened GroupParse
  import opened GroupReplay

  // ---------------------------------------------------------------- models of a brand

  const MODEL_KEYS := ["c", "model", "ssd"]

  predicate IsModelLink(brand: string, a: Anchor) {
    a.link.endpoint.Pick? && !ContextMismatch(a.link, "c", Some(brand), true)
  }

  function ModelIdentity(link: Link): Identity { CandidateIdentity(link, MODEL_KEYS, ["model"]) }

  datatype ModelRecord = ModelRecord(name: string, link: Link)

  function ModelRecords(brand: string, anchors: seq<Anchor>): seq<ModelRecord> {
    if anchors == [] then [] else
      var n := |anchors| - 1;
      var a := anchors[n];
      ModelRecords(brand, anchors[..n]) +
      if IsModelLink(brand, a) && a.text != "" then [ModelRecord(a.text, a.link)] else []
  }

  function ModelCandidates(brand: string, anchors: seq<Anchor>, texts: bool): set<Identity> {
    set a | a in anchors && IsModelLink(brand, a) && (texts ==> a.text != "") :: ModelIdentity(a.link)
  }

  function ModelsMalformed(brand: string, anchors: seq<Anchor>): nat {
    |ModelCandidates(brand, anchors, false) - ModelCandidates(brand, anchors, true)|
  }

  method ReadModels(brand: string, anchors: seq<Anchor>) returns (models: seq<ModelRecord>, malformed: nat)
    ensures models == ModelRecords(brand, anchors) && malformed == ModelsMalformed(brand, anchors)
  {
    hide IsModelLink, ModelIdentity;
    models := [];
    var candidates: set<Identity>, valid: set<Identity> := {}, {};
    for i := 0 to |anchors|
      invariant models == ModelRecords(brand, anchors[..i])
      invariant candidates == ModelCandidates(brand, anchors[..i], false)
      invariant valid == ModelCandidates(brand, anchors[..i], true)
    {
      var a := anchors[i];
      assert anchors[..i + 1][..i] == anchors[..i];
      assert forall x :: x in anchors[..i + 1] <==> x in anchors[..i] || x == a;
      if IsModelLink(brand, a) {
        candidates := candidates + {ModelIdentity(a.link)};
        if a.text != "" {
          valid := valid + {ModelIdentity(a.link)};
          models := models + [ModelRecord(a.text, a.link)];
        }
      }
    }
    assert anchors[..|anchors|] == anchors;
    malformed := |candidates - valid|;
  }

  // ---------------------------------------------------------------- categories of a vehicle

  const CATEGORY_KEYS := ["c", "ssd", "vid", "cid"]

  datatype CategoryRecord = CategoryRecord(name: string, cid: string, link: Link)

  /** `unquote` is the percent-decoding that the URL library applies to a category name. */
  datatype VehicleContext = VehicleContext(brand: string, expectedVid: Option<string>, unquote: string -> string)

  datatype Categories = Categories(
    records: seq<CategoryRecord>, seen: map<string, string>, clashes: nat, skipped: nat,
    candidates: set<Identity>, valid: set<Identity>)

  const NO_CATEGORIES := Categories([], map[], 0, 0, {}, {})

  predicate IsCategoryContext(ctx: VehicleContext, link: Link) {
    && !ContextMismatch(link, "c", Some(ctx.brand), true) && !ContextMismatch(link, "vid", ctx.expectedVid, false)
    && Qs(link, "cid").Some?
  }

  function CategoryIdentity(link: Link): Identity { CandidateIdentity(link, CATEGORY_KEYS, ["cid"]) }

  function CategoryName(ctx: VehicleContext, a: Anchor): string {
    var cname := Qs(a.link, "cname");
    if cname.Some? then ctx.unquote(cname.value) else a.text
  }

  function AddCategory(st: Categories, id: Identity, cid: string, name: string, link: Link): Categories {
    if cid in st.seen then
      if st.seen[cid] != name then st.(clashes := st.clashes + 1) else st.(valid := st.valid + {id})
    else st.(seen := st.seen[cid := name], valid := st.valid + {id},
             records := st.records + [CategoryRecord(name, cid, link)])
  }

  function CategoryStep(ctx: VehicleContext, st: Categories, a: Anchor): Categories {
    if !a.link.endpoint.VehiclePage? then st
    else if !IsCategoryContext(ctx, a.link) then st.(skipped := st.skipped + 1)
    else
      var id := CategoryIdentity(a.link);
      var listed := st.(candidates := st.candidates + {id});
      if a.text == "" then listed
      else AddCategory(listed, id, Qs(a.link, "cid").value, CategoryName(ctx, a), a.link)
  }

  function RunCategories(ctx: VehicleContext, anchors: seq<Anchor>): Categories {
    if anchors == [] then NO_CATEGORIES
    else CategoryStep(ctx, RunCategories(ctx, anchors[..|anchors| - 1]), anchors[|anchors| - 1])
  }

  function CategoriesMalformed(st: Categories): nat { st.clashes + |st.candidates - st.valid| }

  method ReadCategories(ctx: VehicleContext, anchors: seq<Anchor>)
      returns (records: seq<CategoryRecord>, malformed: nat, skipped: nat)
    ensures var st := RunCategories(ctx, anchors);
      records == st.records && malformed == CategoriesMalformed(st) && skipped == st.skipped
  {
    hide IsCategoryContext, CategoryIdentity, CategoryName;
    records, malformed, skipped := [], 0, 0;
    var candidates: set<Identity>, valid: set<Identity>, seen: map<string, string> := {}, {}, map[];
    for i := 0 to |anchors|
      invariant RunCategories(ctx, anchors[..i]) == Categories(records, seen, malformed, skipped, candidates, valid)
    {
      var a := anchors[i];
      assert anchors[..i + 1][..i] == anchors[..i];
      if !a.link.endpoint.VehiclePage? { continue; }
      if !IsCategoryContext(ctx, a.link) {
        skipped := skipped + 1;
        continue;
      }
      HasCid(ctx, a.link);
      var cid, candidate := Qs(a.link, "cid").value, CategoryIdentity(a.link);
      candidates := candidates + {candidate};
      if a.text == "" { continue; }
      var name := CategoryName(ctx, a);
      if cid in seen {
        if seen[cid] != name { malformed := malformed + 1; } else { valid := valid + {candidate}; }
        continue;
      }
      seen := seen[cid := name];
      valid := valid + {candidate};
      records := records + [CategoryRecord(name, cid, a.link)];
    }
    assert anchors[..|anchors|] == anchors;
    malformed := malformed + |candidates - valid|;
  }

  lemma HasCid(ctx: VehicleContext, link: Link)
    requires IsCategoryContext(ctx, link)
    ensures Qs(link, "cid").Some?
  {
  }

  // ---------------------------------------------------------------- vehicles of a model

  const VEHICLE_KEYS := ["c", "ssd", "vid"]

  /** A row of a specification table: the links in it and its normalised columns. */
  datatype SpecRow = SpecRow(links: seq<nat>, columns: seq<string>)

  datatype VehicleRecord = VehicleRecord(columns: seq<string>, link: Link)

  predicate IsVehicleLink(brand: string, link: Link) {
    link.endpoint.VehiclePage? && !ContextMismatch(link, "c", Some(brand), true)
  }

  function VehicleIdentity(link: Link): Identity { CandidateIdentity(link, VEHICLE_KEYS, []) }

  /** The links of a row are links of the page. */
  predicate RowOnPage(page: seq<Element>, row: SpecRow) {
    forall i :: i in row.links ==> i < |page| && page[i].text.Some?
  }

  function FirstMatching(brand: string, page: seq<Element>, links: seq<nat>): Option<Link>
    requires forall i :: i in links ==> i < |page|
  {
    if links == [] then None
    else
      assert links[0] in links;
      assert forall i :: i in links[1..] ==> i in links;
      if IsVehicleLink(brand, page[links[0]].link) then Some(page[links[0]].link)
      else FirstMatching(brand, page, links[1..])
  }

  /** A row counts when it links to this brand's vehicle and specifies something. */
  predicate RowCounts(brand: string, page: seq<Element>, row: SpecRow)
    requires RowOnPage(page, row)
  {
    FirstMatching(brand, page, row.links).Some? && exists column :: column in row.columns && column != ""
  }

  function RowIds(brand: string, page: seq<Element>, row: SpecRow): set<Identity>
    requires RowOnPage(page, row)
  {
    set i | i in row.links && IsVehicleLink(brand, page[i].link) :: VehicleIdentity(page[i].link)
  }

  datatype Vehicles = Vehicles(records: seq<VehicleRecord>, specs: map<Identity, seq<string>>, conflicts: nat)

  const NO_VEHICLES := Vehicles([], map[], 0)

  function Clashing(specs: map<Identity, seq<string>>, ids: set<Identity>, columns: seq<string>): set<Identity> {
    set id | id in ids && id in specs && specs[id] != columns
  }

  function Claim(specs: map<Identity, seq<string>>, ids: set<Identity>, columns: seq<string>)
      : map<Identity, seq<string>>
  {
    specs + map id | id in ids - Clashing(specs, ids, columns) :: columns
  }

  /** Request tokens are no identity: records are told apart by their columns, the first is kept. */
  function Distinct(records: seq<VehicleRecord>): seq<VehicleRecord> {
    if records == [] then [] else
      var n := |records| - 1;
      Distinct(records[..n]) + if records[n].columns in Columns(records[..n]) then [] else [records[n]]
  }

  function Columns(records: seq<VehicleRecord>): set<seq<string>> { set r | r in records :: r.columns }

  function VehicleStep(brand: string, page: seq<Element>, st: Vehicles, row: SpecRow): Vehicles
    requires RowOnPage(page, row)
  {
    if !RowCounts(brand, page, row) then st
    else
      var ids := RowIds(brand, page, row);
      Vehicles(st.records + [VehicleRecord(row.columns, FirstMatching(brand, page, row.links).value)],
               Claim(st.specs, ids, row.columns), st.conflicts + |Clashing(st.specs, ids, row.columns)|)
  }

  function RunVehicles(brand: string, page: seq<Element>, rows: seq<SpecRow>): Vehicles
    requires forall row :: row in rows ==> RowOnPage(page, row)
  {
    if rows == [] then NO_VEHICLES
    else VehicleStep(brand, page, RunVehicles(brand, page, rows[..|rows| - 1]), rows[|rows| - 1])
  }

  function VehicleCandidates(brand: string, page: seq<Element>): set<Identity> {
    set e | e in page && e.text.Some? && IsVehicleLink(brand, e.link) :: VehicleIdentity(e.link)
  }

  function VehiclesMalformed(brand: string, page: seq<Element>, st: Vehicles): nat {
    st.conflicts + |VehicleCandidates(brand, page) - st.specs.Keys|
  }

  lemma ClaimNext(specs: map<Identity, seq<string>>, done: set<Identity>, id: Identity, columns: seq<string>)
    requires id !in done
    ensures var contradicts := id in specs && specs[id] != columns;
      && (id in Claim(specs, done, columns) && Claim(specs, done, columns)[id] != columns <==> contradicts)
      && Clashing(specs, done + {id}, columns) == Clashing(specs, done, columns) + (if contradicts then {id} else {})
      && Claim(specs, done + {id}, columns)
         == if contradicts then Claim(specs, done, columns) else Claim(specs, done, columns)[id := columns]
  {
    var contradicts := id in specs && specs[id] != columns;
    assert Clashing(specs, done + {id}, columns) == Clashing(specs, done, columns) + (if contradicts then {id} else {});
    var a, b := done - Clashing(specs, done, columns), (done + {id}) - Clashing(specs, done + {id}, columns);
    assert b == a + if contradicts then {} else {id};
  }

  /** The candidates of one row either confirm, claim or contradict the specification they carry. */
  method ClaimRow(specs: map<Identity, seq<string>>, ids: set<Identity>, columns: seq<string>)
      returns (claimed: map<Identity, seq<string>>, conflicts: nat)
    ensures claimed == Claim(specs, ids, columns) && conflicts == |Clashing(specs, ids, columns)|
  {
    hide Claim, Clashing;
    claimed, conflicts := specs, 0;
    NothingClaimed(specs, columns);
    var remaining := ids;
    ghost var done: set<Identity> := {};
    while remaining != {}
      invariant done !! remaining && done + remaining == ids
      invariant claimed == Claim(specs, done, columns) && conflicts == |Clashing(specs, done, columns)|
      decreases |remaining|
    {
      var id :| id in remaining;
      ClaimNext(specs, done, id, columns);
      ClashingWithin(specs, done, columns);
      if id in claimed && claimed[id] != columns {
        conflicts := conflicts + 1;
      } else {
        claimed := claimed[id := columns];
      }
      remaining := remaining - {id};
      done := done + {id};
    }
    assert done == ids;
  }

  lemma NothingClaimed(specs: map<Identity, seq<string>>, columns: seq<string>)
    ensures Claim(specs, {}, columns) == specs && Clashing(specs, {}, columns) == {}
  {
  }

  lemma ClashingWithin(specs: map<Identity, seq<string>>, ids: set<Identity>, columns: seq<string>)
    ensures Clashing(specs, ids, columns) <= ids && Clashing(specs, ids, columns) + {} == Clashing(specs, ids, columns)
  {
  }

  method ReadVehicles(brand: string, page: seq<Element>, rows: seq<SpecRow>)
      returns (out: seq<VehicleRecord>, malformed: nat)
    requires forall row :: row in rows ==> RowOnPage(page, row)
    ensures var st := RunVehicles(brand, page, rows);
      out == Distinct(st.records) && malformed == VehiclesMalformed(brand, page, st)
  {
    hide IsVehicleLink, VehicleIdentity, RowCounts, RowIds, FirstMatching, Claim, Clashing;
    malformed := 0;
    var vehicles: seq<VehicleRecord> := [];
    var specs: map<Identity, seq<string>> := map[];
    for i := 0 to |rows|
      invariant RunVehicles(brand, page, rows[..i]) == Vehicles(vehicles, specs, malformed)
    {
      var row := rows[i];
      assert rows[..i + 1][..i] == rows[..i];
      if !RowCounts(brand, page, row) { continue; }
      CountsHasLink(brand, page, row);
      var conflicts: nat;
      specs, conflicts := ClaimRow(specs, RowIds(brand, page, row), row.columns);
      malformed := malformed + conflicts;
      vehicles := vehicles + [VehicleRecord(row.columns, FirstMatching(brand, page, row.links).value)];
    }
    assert rows[..|rows|] == rows;
    out := [];
    var seen: set<seq<string>> := {};
    for i := 0 to |vehicles|
      invariant out == Distinct(vehicles[..i]) && seen == Columns(vehicles[..i])
    {
      assert vehicles[..i + 1][..i] == vehicles[..i];
      assert forall v :: v in vehicles[..i + 1] <==> v in vehicles[..i] || v == vehicles[i];
      if vehicles[i].columns in seen { continue; }
      seen := seen + {vehicles[i].columns};
      out := out + [vehicles[i]];
    }
    assert vehicles[..|vehicles|] == vehicles;
    malformed := malformed + |VehicleCandidates(brand, page) - specs.Keys|;
  }

  lemma CountsHasLink(brand: string, page: seq<Element>, row: SpecRow)
    requires RowOnPage(page, row) && RowCounts(brand, page, row)
    ensures FirstMatching(brand, page, row.links).Some?
  {
  }
}
