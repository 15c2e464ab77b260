/**
What `parse_groups` reports does not depend on the order of the links: whether anything is
malformed, and if nothing is, the set of groups.
*/
module GroupOrder {
  import opened Wrappers
  import opened Links
  import opened GroupParse

  // ---------------------------------------------------------------- malformed, declaratively

  ghost predicate Fits(prefix: seq<Entry>, e: Entry) {
    e.role.Named? ==>
      && !(exists p :: p in prefix && p.role.Named? && p.id == e.id && p.role != e.role)
      && !(exists p :: p in prefix && p.role.Named? && NameKeyOf(p) == NameKeyOf(e) && p.role.name != e.role.name)
  }

  lemma ConsistentNext(prefix: seq<Entry>, e: Entry)
    ensures Consistent(prefix + [e]) <==> Consistent(prefix) && Fits(prefix, e)
  {
    assert forall p :: p in prefix + [e] <==> p in prefix || p == e;
    assert e in prefix + [e];
  }

  lemma ValidStep(valid: set<Identity>, entries: seq<Entry>, e: Entry)
    requires RemembersValid(valid, entries)
    ensures RemembersValid(if IsUsable(e) then valid + {e.id} else valid, entries + [e])
  {
    var next := if IsUsable(e) then valid + {e.id} else valid;
    forall id ensures id in next <==> exists p :: p in entries + [e] && IsUsable(p) && p.id == id {
      assert e in entries + [e];
    }
  }

  lemma QuietStep(st: State, entries: seq<Entry>, e: Entry)
    requires Remembers(st, entries) && !e.role.Named?
    ensures RemembersSpecs(st.specs, entries + [e]) && RemembersNames(st.found.seen, entries + [e])
    ensures !IsUsable(e) ==> RemembersUids(st.found.seenUids, entries + [e])
  {
    assert forall p :: p in entries + [e] <==> p in entries || p == e;
  }

  /** What one entry adds, as long as nothing went wrong before. */
  lemma StepRemembers(st: State, entries: seq<Entry>, e: Entry)
    requires Remembers(st, entries) && SeenHaveUids(st.found)
    ensures Fits(entries, e) ==> Remembers(Step(st, e), entries + [e])
    ensures !Fits(entries, e) ==> Step(st, e).conflicts + Step(st, e).found.clashes > 0
  {
    hide RemembersSpecs, RemembersNames, RemembersUids, RemembersValid;
    ValidStep(st.valid, entries, e);
    if e.role.Named? {
      SpecsStep(st.specs, entries, e);
      NamesStep(st.found, entries, e);
      UidsStep(st.found, entries, e);
    } else {
      QuietStep(st, entries, e);
      if IsUsable(e) { UidsStep(st.found, entries, e); }
    }
  }

  ghost predicate SeenHaveUids(f: Found) {
    forall key :: key in f.seen ==> (key.0, key.2) in f.seenUids
  }

  lemma AddKeepsUids(f: Found, e: Entry)
    requires SeenHaveUids(f)
    ensures SeenHaveUids(AddEntry(f, e))
  {
  }

  lemma {:induction false} RunRemembers(entries: seq<Entry>)
    ensures SeenHaveUids(Run(entries).found)
    ensures Consistent(entries) ==> Remembers(Run(entries), entries)
    ensures !Consistent(entries) ==> Run(entries).conflicts + Run(entries).found.clashes > 0
  {
    hide RemembersSpecs, RemembersNames, RemembersUids, RemembersValid, Consistent, Fits, SeenHaveUids;
    if entries == [] {
      NothingRemembered();
    } else {
      var prefix, e := entries[..|entries| - 1], entries[|entries| - 1];
      assert entries == prefix + [e];
      RunRemembers(prefix);
      ConsistentNext(prefix, e);
      AddKeepsUids(Run(prefix).found, e);
      if Consistent(prefix) { StepRemembers(Run(prefix), prefix, e); }
    }
  }

  lemma NothingRemembered()
    ensures Remembers(START, []) && Consistent([]) && SeenHaveUids(NOTHING)
  {
  }

  lemma {:induction false} RunListsCandidates(entries: seq<Entry>)
    ensures ListsCandidates(Run(entries).candidates, entries)
  {
    if entries != [] {
      var prefix, e := entries[..|entries| - 1], entries[|entries| - 1];
      assert entries == prefix + [e];
      RunListsCandidates(prefix);
      var st := Run(prefix);
      assert Step(st, e).candidates == if IsCandidate(e) then st.candidates + {e.id} else st.candidates;
      forall id ensures id in Step(st, e).candidates <==> exists p :: p in entries && IsCandidate(p) && p.id == id {
        assert e in entries;
      }
    }
  }

  /** Nothing is malformed exactly when no candidate carries two texts, no group two names, and
      every candidate is linked in a usable way: a statement about the set of links alone. */
  lemma MalformedIffNotClean(entries: seq<Entry>)
    ensures Report(Run(entries)).malformed == 0 <==> Clean(entries)
  {
    hide Step, Consistent;
    RunRemembers(entries);
    RunListsCandidates(entries);
    if Consistent(entries) { ReconciledIsSubset(Run(entries), entries); }
  }

  lemma ReconciledIsSubset(st: State, entries: seq<Entry>)
    requires RemembersValid(st.valid, entries) && ListsCandidates(st.candidates, entries)
    ensures |st.candidates - st.valid| == 0 <==> Reconciled(entries)
  {
    assert |st.candidates - st.valid| == 0 <==> st.candidates - st.valid == {};
    if st.candidates - st.valid == {} {
      forall a | a in entries && IsCandidate(a) ensures exists b :: b in entries && IsUsable(b) && b.id == a.id {
        assert a.id in st.candidates;
        assert a.id !in st.candidates - st.valid;
      }
    }
    if Reconciled(entries) {
      forall id | id in st.candidates ensures id in st.valid {
        var a :| a in entries && IsCandidate(a) && a.id == id;
      }
    }
  }

  // ---------------------------------------------------------------- the groups, in every run

  function GroupKey(g: Group): NameKey { (g.cid, g.code, g.uid) }

  function UidOf(g: Group): UidKey { (g.cid, g.uid) }

  /** No two groups share cid, code and uid, and a picture shares its cid and uid with no group. */
  ghost predicate Apart(groups: seq<Group>) {
    forall i, j :: 0 <= i < j < |groups| ==> Compatible(groups[i], groups[j])
  }

  predicate Compatible(g: Group, h: Group) {
    UidOf(g) == UidOf(h) ==> g.code != h.code && g.code != "" && h.code != ""
  }

  ghost predicate UidsMirror(groups: seq<Group>, seenUids: set<UidKey>) {
    forall key :: key in seenUids <==> exists g :: g in groups && UidOf(g) == key
  }

  ghost predicate NamesMirror(groups: seq<Group>, seen: map<NameKey, string>) {
    && (forall g :: g in groups ==>
          if g.code == "" then g.name == "" else GroupKey(g) in seen && seen[GroupKey(g)] == g.name)
    && (forall key :: key in seen ==> key.1 != "" && exists g :: g in groups && GroupKey(g) == key)
  }

  /** The group list and the dictionaries that guard it agree. */
  ghost predicate Sound(f: Found) {
    Apart(f.groups) && UidsMirror(f.groups, f.seenUids) && NamesMirror(f.groups, f.seen)
  }

  lemma {:induction false} NoPictureLeft(groups: seq<Group>, cid: string, uid: string)
    requires FirstPicture(groups, cid, uid) == |groups|
    ensures forall g :: g in groups && UidOf(g) == (cid, uid) ==> g.code != ""
  {
    if groups != [] {
      assert groups == [groups[0]] + groups[1..];
      NoPictureLeft(groups[1..], cid, uid);
    }
  }

  lemma AppendMirrors(groups: seq<Group>, g: Group, seenUids: set<UidKey>, seen: map<NameKey, string>)
    requires UidsMirror(groups, seenUids) && NamesMirror(groups, seen) && (g.code == "" ==> g.name == "")
    requires GroupKey(g) !in seen
    ensures UidsMirror(groups + [g], seenUids + {UidOf(g)})
    ensures NamesMirror(groups + [g], if g.code == "" then seen else seen[GroupKey(g) := g.name])
  {
    var next := groups + [g];
    assert forall h :: h in next <==> h in groups || h == g;
    assert g in next;
  }

  lemma AppendKeepsApart(groups: seq<Group>, g: Group)
    requires Apart(groups) && forall h :: h in groups ==> Compatible(h, g)
    ensures Apart(groups + [g])
  {
  }

  lemma ReplacedMember(groups: seq<Group>, i: nat, g: Group, h: Group)
    requires i < |groups| && h in groups && h != groups[i]
    ensures h in groups[i := g]
  {
    var j :| 0 <= j < |groups| && groups[j] == h;
    assert groups[i := g][j] == h;
  }

  lemma UpgradeMirrorsUids(groups: seq<Group>, i: nat, g: Group, seenUids: set<UidKey>)
    requires UidsMirror(groups, seenUids) && i < |groups| && UidOf(g) == UidOf(groups[i])
    ensures UidsMirror(groups[i := g], seenUids)
  {
    var next := groups[i := g];
    assert next[i] == g && groups[i] in groups;
    forall key ensures key in seenUids <==> exists h :: h in next && UidOf(h) == key {
      if key in seenUids {
        var h :| h in groups && UidOf(h) == key;
        if h != groups[i] { ReplacedMember(groups, i, g, h); }
      }
    }
  }

  lemma UpgradeMirrorsNames(groups: seq<Group>, i: nat, g: Group, seen: map<NameKey, string>)
    requires NamesMirror(groups, seen) && i < |groups| && groups[i].code == "" && g.code != "" && GroupKey(g) !in seen
    ensures NamesMirror(groups[i := g], seen[GroupKey(g) := g.name])
  {
    var next := groups[i := g];
    assert next[i] == g;
    forall key | key in seen ensures exists h :: h in next && GroupKey(h) == key {
      var h :| h in groups && GroupKey(h) == key;
      ReplacedMember(groups, i, g, h);
    }
  }

  /** A picture has its cid and uid for itself, so the upgraded entry meets no other. */
  lemma UpgradeKeepsApart(groups: seq<Group>, i: nat, g: Group)
    requires Apart(groups) && i < |groups| && groups[i].code == "" && UidOf(g) == UidOf(groups[i])
    ensures Apart(groups[i := g])
  {
    var next := groups[i := g];
    forall j, k | 0 <= j < k < |next| ensures Compatible(next[j], next[k]) {
      assert Compatible(groups[j], groups[k]);
    }
  }

  lemma PictureKeepsSound(f: Found, e: Entry)
    requires Sound(f)
    ensures Sound(AddPicture(f, e))
  {
    if (e.cid, e.uid) !in f.seenUids {
      var g := Group("", "", e.cid, e.uid, e.link);
      AppendMirrors(f.groups, g, f.seenUids, f.seen);
      forall h | h in f.groups ensures Compatible(h, g) { assert UidOf(h) in f.seenUids; }
      AppendKeepsApart(f.groups, g);
    }
  }

  lemma NamedKeepsSound(f: Found, e: Entry)
    requires Sound(f) && e.role.Named? && e.role.code != ""
    ensures Sound(AddNamed(f, e))
  {
    hide UidsMirror, Apart;
    if NameKeyOf(e) !in f.seen {
      var i := FirstPicture(f.groups, e.cid, e.uid);
      if (e.cid, e.uid) in f.seenUids && i < |f.groups| {
        var g := f.groups[i].(code := e.role.code, name := e.role.name);
        UpgradeMirrorsUids(f.groups, i, g, f.seenUids);
        UpgradeMirrorsNames(f.groups, i, g, f.seen);
        UpgradeKeepsApart(f.groups, i, g);
      } else {
        var g := Group(e.role.code, e.role.name, e.cid, e.uid, e.link);
        FreshNameCompatible(f, g);
        AppendMirrors(f.groups, g, f.seenUids, f.seen);
        AppendKeepsApart(f.groups, g);
      }
    }
  }

  lemma FreshNameCompatible(f: Found, g: Group)
    requires Sound(f) && GroupKey(g) !in f.seen && g.code != ""
    requires UidOf(g) !in f.seenUids || FirstPicture(f.groups, g.cid, g.uid) == |f.groups|
    ensures forall h :: h in f.groups ==> Compatible(h, g)
  {
    hide Apart;
    if UidOf(g) in f.seenUids { NoPictureLeft(f.groups, g.cid, g.uid); }
  }

  /** Every entry that the classifier makes names a group with a code. */
  ghost predicate Coded(entries: seq<Entry>) {
    forall e :: e in entries && e.role.Named? ==> e.role.code != ""
  }

  lemma {:induction false} EntriesMember(ctx: Context, anchors: seq<Anchor>, e: Entry)
    ensures e in Entries(ctx, anchors) <==> exists a :: a in anchors && Classify(ctx, a) == Some(e)
  {
    hide Classify;
    if anchors != [] {
      var n := |anchors| - 1;
      assert anchors == anchors[..n] + [anchors[n]];
      EntriesMember(ctx, anchors[..n], e);
    }
  }

  lemma EntriesCoded(ctx: Context, anchors: seq<Anchor>)
    ensures Coded(Entries(ctx, anchors))
  {
    forall e | e in Entries(ctx, anchors) && e.role.Named? ensures e.role.code != "" {
      EntriesMember(ctx, anchors, e);
    }
  }

  lemma {:induction false} RunSound(entries: seq<Entry>)
    requires Coded(entries)
    ensures Sound(Run(entries).found)
  {
    hide Sound, AddNamed, AddPicture;
    if entries == [] {
      assert Sound(NOTHING) by { NothingSound(); }
    } else {
      var prefix, e := entries[..|entries| - 1], entries[|entries| - 1];
      assert e in entries;
      RunSound(prefix);
      if e.role.Named? { NamedKeepsSound(Run(prefix).found, e); }
      PictureKeepsSound(Run(prefix).found, e);
      SkippedKeepsSound(Run(prefix).found);
    }
  }

  lemma NothingSound()
    ensures Sound(NOTHING)
  {
  }

  lemma SkippedKeepsSound(f: Found)
    ensures Sound(f) ==> Sound(f.(skipped := f.skipped + 1))
  {
  }

  /** In every page, whatever its order and its faults, group keys are unique and a cid and uid
      never have both a picture and a text. */
  lemma GroupsAreApart(ctx: Context, anchors: seq<Anchor>)
    ensures var groups := ParseGroups(ctx, anchors).groups;
      forall i, j :: 0 <= i < j < |groups| && UidOf(groups[i]) == UidOf(groups[j]) ==>
        groups[i].code != groups[j].code && groups[i].code != "" && groups[j].code != ""
  {
    hide Run;
    EntriesCoded(ctx, anchors);
    RunSound(Entries(ctx, anchors));
  }

  // ---------------------------------------------------------------- the groups, of a clean page

  datatype Identified = Identified(cid: string, code: string, uid: string, name: string)

  function IdentityOf(g: Group): Identified { Identified(g.cid, g.code, g.uid, g.name) }

  ghost predicate Lists(groups: seq<Group>, q: Identified) { exists g :: g in groups && IdentityOf(g) == q }

  /** The group is named by a link, or pictured by a link and named by none. */
  ghost predicate Declared(entries: seq<Entry>, q: Identified) {
    if q.code != "" then
      exists e :: e in entries && e.role == Named(q.code, q.name) && e.cid == q.cid && e.uid == q.uid
    else
      && q.name == ""
      && (exists e :: e in entries && e.role.Picture? && e.cid == q.cid && e.uid == q.uid)
      && !(exists e :: e in entries && e.role.Named? && e.cid == q.cid && e.uid == q.uid)
  }

  lemma NamedDeclared(f: Found, entries: seq<Entry>, q: Identified)
    requires Sound(f) && RemembersNames(f.seen, entries) && q.code != ""
    ensures Lists(f.groups, q) <==> Declared(entries, q)
  {
    hide Apart, UidsMirror;
    var key := (q.cid, q.code, q.uid);
    if Declared(entries, q) {
      var e :| e in entries && e.role == Named(q.code, q.name) && e.cid == q.cid && e.uid == q.uid;
      assert NameKeyOf(e) == key && key in f.seen;
      var g :| g in f.groups && GroupKey(g) == key;
    }
    if Lists(f.groups, q) {
      var g :| g in f.groups && IdentityOf(g) == q;
      assert GroupKey(g) == key && key in f.seen;
      var e :| e in entries && e.role.Named? && NameKeyOf(e) == key;
      assert e.role.name == f.seen[key];
    }
  }

  lemma PictureExcludesText(groups: seq<Group>, g: Group, h: Group)
    requires Apart(groups) && g in groups && h in groups && UidOf(g) == UidOf(h) && g.code == ""
    ensures h == g
  {
    var i :| 0 <= i < |groups| && groups[i] == g;
    var j :| 0 <= j < |groups| && groups[j] == h;
  }

  lemma PictureDeclared(f: Found, entries: seq<Entry>, q: Identified)
    requires Sound(f) && Coded(entries) && RemembersNames(f.seen, entries) && RemembersUids(f.seenUids, entries)
      && q.code == ""
    ensures Lists(f.groups, q) <==> Declared(entries, q)
  {
    hide Apart;
    var uid := (q.cid, q.uid);
    if Lists(f.groups, q) {
      var g :| g in f.groups && IdentityOf(g) == q;
      assert UidOf(g) == uid && uid in f.seenUids;
      NoTextBeside(f, entries, g);
      var e :| e in entries && IsUsable(e) && (e.cid, e.uid) == uid;
    }
    if Declared(entries, q) {
      var e :| e in entries && e.role.Picture? && e.cid == q.cid && e.uid == q.uid;
      assert IsUsable(e) && (e.cid, e.uid) == uid;
      assert uid in f.seenUids;
      var g :| g in f.groups && UidOf(g) == uid;
      assert GroupKey(g) in f.seen || g.code == "";
      assert g.code == "";
      assert IdentityOf(g) == q;
    }
  }

  lemma NoTextBeside(f: Found, entries: seq<Entry>, g: Group)
    requires Sound(f) && Coded(entries) && RemembersNames(f.seen, entries) && g in f.groups && g.code == ""
    ensures !(exists e :: e in entries && e.role.Named? && e.cid == g.cid && e.uid == g.uid)
  {
    hide Apart, UidsMirror;
    if e :| e in entries && e.role.Named? && e.cid == g.cid && e.uid == g.uid {
      assert NameKeyOf(e) in f.seen;
      var h :| h in f.groups && GroupKey(h) == NameKeyOf(e);
      PictureExcludesText(f.groups, g, h);
    }
  }

  /** With nothing malformed, the groups are exactly those that the links declare. */
  lemma CleanGroupsAreDeclared(entries: seq<Entry>, q: Identified)
    requires Coded(entries) && Clean(entries)
    ensures Lists(Run(entries).found.groups, q) <==> Declared(entries, q)
  {
    hide Sound, Run, Declared, Lists, Consistent, Reconciled, RemembersNames, RemembersUids;
    RunRemembers(entries);
    RunSound(entries);
    if q.code != "" {
      NamedDeclared(Run(entries).found, entries, q);
    } else {
      PictureDeclared(Run(entries).found, entries, q);
    }
  }

  // ---------------------------------------------------------------- the theorem

  ghost predicate SameAnchors(a: seq<Anchor>, b: seq<Anchor>) { forall x :: x in a <==> x in b }

  lemma SameEntries(ctx: Context, a: seq<Anchor>, b: seq<Anchor>)
    requires SameAnchors(a, b)
    ensures forall e :: e in Entries(ctx, a) <==> e in Entries(ctx, b)
  {
    forall e ensures e in Entries(ctx, a) <==> e in Entries(ctx, b) {
      EntriesMember(ctx, a, e);
      EntriesMember(ctx, b, e);
    }
  }

  lemma SameEntriesSameClean(a: seq<Entry>, b: seq<Entry>)
    requires forall e :: e in a <==> e in b
    ensures Clean(a) <==> Clean(b)
  {
  }

  /** Reordering or repeating links changes neither whether the page is malformed nor, if it is
      not, which groups it lists. */
  lemma GroupParseIsOrderIndependent(ctx: Context, a: seq<Anchor>, b: seq<Anchor>, q: Identified)
    requires SameAnchors(a, b)
    ensures ParseGroups(ctx, a).malformed == 0 <==> ParseGroups(ctx, b).malformed == 0
    ensures ParseGroups(ctx, a).malformed == 0 ==>
              (Lists(ParseGroups(ctx, a).groups, q) <==> Lists(ParseGroups(ctx, b).groups, q))
  {
    hide Clean, Run, Lists, Declared, SameAnchors;
    var x, y := Entries(ctx, a), Entries(ctx, b);
    SameEntries(ctx, a, b);
    SameEntriesSameClean(x, y);
    MalformedIffNotClean(x);
    MalformedIffNotClean(y);
    if Clean(x) {
      EntriesCoded(ctx, a);
      EntriesCoded(ctx, b);
      CleanGroupsAreDeclared(x, q);
      CleanGroupsAreDeclared(y, q);
      SameEntriesSameDeclared(x, y, q);
    }
  }

  lemma SameEntriesSameDeclared(a: seq<Entry>, b: seq<Entry>, q: Identified)
    requires forall e :: e in a <==> e in b
    ensures Declared(a, q) <==> Declared(b, q)
  {
  }

  // ---------------------------------------------------------------- the one counter that does

  function Pictures(groups: seq<Group>): nat {
    if groups == [] then 0 else Pictures(groups[..|groups| - 1]) + if groups[|groups| - 1].code == "" then 1 else 0
  }

  /** A text arrives for a group that was listed as a picture. */
  predicate Upgrades(st: State, e: Entry) {
    && e.role.Named? && !(e.id in st.specs && st.specs[e.id] != (e.role.code, e.role.name))
    && NameKeyOf(e) !in st.found.seen && (e.cid, e.uid) in st.found.seenUids
    && FirstPicture(st.found.groups, e.cid, e.uid) < |st.found.groups|
  }

  function UpgradeCount(entries: seq<Entry>): nat {
    if entries == [] then 0 else
      var prefix := entries[..|entries| - 1];
      UpgradeCount(prefix) + if Upgrades(Run(prefix), entries[|entries| - 1]) then 1 else 0
  }

  lemma {:induction false} PicturesUpdate(groups: seq<Group>, i: nat, g: Group)
    requires i < |groups| && groups[i].code == "" && g.code != ""
    ensures Pictures(groups[i := g]) + 1 == Pictures(groups)
  {
    var n := |groups| - 1;
    if i < n {
      assert groups[i := g][..n] == groups[..n][i := g];
      PicturesUpdate(groups[..n], i, g);
    } else {
      assert groups[i := g][..n] == groups[..n];
    }
  }

  lemma PicturesNext(groups: seq<Group>, g: Group)
    ensures Pictures(groups + [g]) == Pictures(groups) + if g.code == "" then 1 else 0
  {
    assert (groups + [g])[..|groups|] == groups;
  }

  /** The image-only counter is the number of groups left as pictures plus the number of upgrades,
      so it states how many groups have no text exactly when no picture came before its text. */
  lemma {:induction false} ImageOnlyNext(s: State, e: Entry)
    requires e.role.Named? ==> e.role.code != ""
    ensures Step(s, e).found.imageOnly - Pictures(Step(s, e).found.groups)
      == s.found.imageOnly - Pictures(s.found.groups) + if Upgrades(s, e) then 1 else 0
  {
    hide Pictures;
    PicturesNext(s.found.groups, Group("", "", e.cid, e.uid, e.link));
    if e.role.Named? {
      PicturesNext(s.found.groups, Group(e.role.code, e.role.name, e.cid, e.uid, e.link));
      var i := FirstPicture(s.found.groups, e.cid, e.uid);
      if i < |s.found.groups| {
        PicturesUpdate(s.found.groups, i, s.found.groups[i].(code := e.role.code, name := e.role.name));
      }
    }
  }

  lemma {:induction false} ImageOnlyCountsUpgrades(entries: seq<Entry>)
    requires Coded(entries)
    ensures Run(entries).found.imageOnly == Pictures(Run(entries).found.groups) + UpgradeCount(entries)
  {
    if entries != [] {
      var prefix, e := entries[..|entries| - 1], entries[|entries| - 1];
      assert e in entries;
      hide Step, Pictures, Upgrades;
      ImageOnlyCountsUpgrades(prefix);
      ImageOnlyNext(Run(prefix), e);
    }
  }

  /** Two links of one clean group, a text and a picture: the counter is 0 in one order, 1 in the other. */
  lemma ImageOnlyDependsOnOrder(ctx: Context, text: Anchor, picture: Anchor)
    requires Classify(ctx, text).Some? && Classify(ctx, picture).Some?
    requires var t, p := Classify(ctx, text).value, Classify(ctx, picture).value;
      t.role.Named? && p.role.Picture? && t.cid == p.cid && t.uid == p.uid
    ensures ParseGroups(ctx, [text, picture]).imageOnly == 0
    ensures ParseGroups(ctx, [picture, text]).imageOnly == 1
  {
    hide Classify;
    var t, p := Classify(ctx, text).value, Classify(ctx, picture).value;
    EntriesOfTwo(ctx, text, picture);
    EntriesOfTwo(ctx, picture, text);
    RunOfTwo(t, p);
    RunOfTwo(p, t);
  }

  lemma EntriesOfTwo(ctx: Context, a: Anchor, b: Anchor)
    requires Classify(ctx, a).Some? && Classify(ctx, b).Some?
    ensures Entries(ctx, [a, b]) == [Classify(ctx, a).value, Classify(ctx, b).value]
  {
    hide Classify;
    assert [a, b][..1] == [a] && [a][..0] == [];
    assert Entries(ctx, [a]) == Entries(ctx, []) + [Classify(ctx, a).value] == [Classify(ctx, a).value];
  }

  lemma RunOfTwo(a: Entry, b: Entry)
    ensures Run([a, b]) == Step(Step(START, a), b)
  {
    hide Step;
    assert [a, b][..1] == [a] && [a][..0] == [];
    assert Run([a]) == Step(Run([]), a);
  }
}
