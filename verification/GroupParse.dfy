/**
`parse_groups`: unit links become groups.  A group can appear as a picture, as a text, or as both;
the picture is accepted without code and name and upgraded in place when the text comes later.
*/
module GroupParse {
  import opened Wrappers
  import opened Links
  import opened Text

  // ---------------------------------------------------------------- the text of a group link

  predicate IsDigit(c: char) { '0' <= c <= '9' }

  predicate IsCodeChar(c: char) { IsDigit(c) || 'A' <= c <= 'Z' }

  predicate AllDigits(s: string) { forall c :: c in s ==> IsDigit(c) }

  function SkipCode(s: string, i: nat): (j: nat)
    requires i <= |s|
    ensures i <= j <= |s|
    decreases |s| - i
  {
    if i < |s| && IsCodeChar(s[i]) then SkipCode(s, i + 1) else i
  }

  /** Three or four digits, or a word of capitals and digits followed by a number. */
  predicate IsGroupCode(code: string) {
    || (3 <= |code| <= 4 && AllDigits(code))
    || var i := SkipCode(code, 0);
       var j := SkipSpaces(code, i);
       0 < i < j < |code| && AllDigits(code[j..])
  }

  function FindColon(s: string, i: nat): (j: nat)
    requires i <= |s|
    ensures i <= j <= |s|
    decreases |s| - i
  {
    if i < |s| && s[i] != ':' then FindColon(s, i + 1) else i
  }

  /** The code and the name in a text such as "1101: ENGINE", if it has that form and a name. */
  function GroupText(text: string): (spec: Option<(string, string)>)
    ensures spec.Some? ==> spec.value.0 != "" && spec.value.1 != ""
  {
    var k := FindColon(text, 0);
    if k == |text| || !IsGroupCode(text[..k]) then None else
      var rest := text[SkipSpaces(text, k + 1)..];
      if exists i :: 0 <= i < |rest| - 1 && rest[i] == '\n' then None
      else if Strip(rest) == "" then None else Some((text[..k], Strip(rest)))
  }

  // ---------------------------------------------------------------- what one link contributes

  datatype Context = Context(
    brand: string, defaultCid: string, expectedVid: Option<string>, expectedCid: Option<string>)

  datatype Anchor = Anchor(link: Link, text: string)

  datatype Role = Foreign | Unusable | Picture | Named(code: string, name: string)

  /** A unit link: its role, its candidate identity, and the group it stands for. */
  datatype Entry = Entry(role: Role, id: Identity, cid: string, uid: string, link: Link)

  const IDENTITY_KEYS := ["c", "ssd", "vid", "cid", "uid"]

  function RoleOf(ctx: Context, a: Anchor, cid: string, uid: Option<string>): (role: Role)
    ensures role.Named? ==> role.code != "" && role.name != ""
  {
    if ContextMismatch(a.link, "c", Some(ctx.brand), true) || ContextMismatch(a.link, "vid", ctx.expectedVid, false)
    then Foreign
    else if (ctx.expectedCid.Some? && cid != ctx.expectedCid.value) || uid.None? then Unusable
    else if a.text == "" then Picture
    else
      var spec := GroupText(a.text);
      if spec.None? then Unusable else Named(spec.value.0, spec.value.1)
  }

  function Classify(ctx: Context, a: Anchor): Option<Entry> {
    if !a.link.endpoint.Unit? then None else
      var cid := Qs(a.link, "cid");
      var uid := Qs(a.link, "uid");
      var key := if cid.Some? then cid.value else ctx.defaultCid;
      Some(Entry(RoleOf(ctx, a, key, uid), CandidateIdentity(a.link, IDENTITY_KEYS, ["uid"]), key,
                 if uid.Some? then uid.value else "", a.link))
  }

  function Entries(ctx: Context, anchors: seq<Anchor>): seq<Entry> {
    if anchors == [] then [] else
      var n := |anchors| - 1;
      var entry := Classify(ctx, anchors[n]);
      Entries(ctx, anchors[..n]) + if entry.Some? then [entry.value] else []
  }

  // ---------------------------------------------------------------- the groups found

  datatype Group = Group(code: string, name: string, cid: string, uid: string, link: Link)

  type NameKey = (string, string, string)
  type UidKey = (string, string)

  /** Everything the loop keeps about groups, none of which depends on candidate identities. */
  datatype Found = Found(
    groups: seq<Group>, seen: map<NameKey, string>, seenUids: set<UidKey>, clashes: nat, skipped: nat, imageOnly: nat)

  const NOTHING := Found([], map[], {}, 0, 0, 0)

  /** The first picture-only group with this cid and uid, or the number of groups. */
  function FirstPicture(groups: seq<Group>, cid: string, uid: string): (i: nat)
    ensures i <= |groups|
    ensures i < |groups| ==> groups[i].cid == cid && groups[i].uid == uid && groups[i].code == ""
  {
    if groups == [] then 0
    else if groups[0].cid == cid && groups[0].uid == uid && groups[0].code == "" then 0
    else 1 + FirstPicture(groups[1..], cid, uid)
  }

  function AddPicture(f: Found, e: Entry): Found {
    if (e.cid, e.uid) in f.seenUids then f
    else f.(seenUids := f.seenUids + {(e.cid, e.uid)}, imageOnly := f.imageOnly + 1,
            groups := f.groups + [Group("", "", e.cid, e.uid, e.link)])
  }

  function AddNamed(f: Found, e: Entry): Found
    requires e.role.Named?
  {
    var key := (e.cid, e.role.code, e.uid);
    if key in f.seen then (if f.seen[key] != e.role.name then f.(clashes := f.clashes + 1) else f)
    else
      var seen := f.seen[key := e.role.name];
      var i := FirstPicture(f.groups, e.cid, e.uid);
      if (e.cid, e.uid) in f.seenUids && i < |f.groups|
      then f.(seen := seen, groups := f.groups[i := f.groups[i].(code := e.role.code, name := e.role.name)])
      else f.(seen := seen, seenUids := f.seenUids + {(e.cid, e.uid)},
              groups := f.groups + [Group(e.role.code, e.role.name, e.cid, e.uid, e.link)])
  }

  function AddEntry(f: Found, e: Entry): Found {
    match e.role
    case Foreign => f.(skipped := f.skipped + 1)
    case Unusable => f
    case Picture => AddPicture(f, e)
    case Named(_, _) => AddNamed(f, e)
  }

  // ---------------------------------------------------------------- the whole loop

  datatype State = State(
    found: Found, candidates: set<Identity>, valid: set<Identity>,
    specs: map<Identity, (string, string)>, conflicts: nat)

  const START := State(NOTHING, {}, {}, map[], 0)

  function Step(st: State, e: Entry): State {
    match e.role
    case Foreign => st.(found := AddEntry(st.found, e))
    case Unusable => st.(candidates := st.candidates + {e.id})
    case Picture =>
      st.(found := AddEntry(st.found, e), candidates := st.candidates + {e.id}, valid := st.valid + {e.id})
    case Named(code, name) =>
      var listed := st.(candidates := st.candidates + {e.id});
      if e.id in st.specs && st.specs[e.id] != (code, name) then listed.(conflicts := st.conflicts + 1)
      else listed.(found := AddEntry(st.found, e), valid := st.valid + {e.id}, specs := st.specs[e.id := (code, name)])
  }

  function Run(entries: seq<Entry>): State {
    if entries == [] then START else Step(Run(entries[..|entries| - 1]), entries[|entries| - 1])
  }

  datatype Parsed = Parsed(groups: seq<Group>, malformed: nat, skipped: nat, imageOnly: nat)

  function Report(st: State): Parsed {
    Parsed(st.found.groups, st.conflicts + st.found.clashes + |st.candidates - st.valid|,
           st.found.skipped, st.found.imageOnly)
  }

  function ParseGroups(ctx: Context, anchors: seq<Anchor>): Parsed {
    Report(Run(Entries(ctx, anchors)))
  }

  // ---------------------------------------------------------------- when nothing is malformed

  function NameKeyOf(e: Entry): NameKey
    requires e.role.Named?
  {
    (e.cid, e.role.code, e.uid)
  }

  predicate IsCandidate(e: Entry) { !e.role.Foreign? }

  predicate IsUsable(e: Entry) { e.role.Picture? || e.role.Named? }

  /** No candidate identity carries two texts, and no group two names. */
  ghost predicate Consistent(entries: seq<Entry>) {
    && (forall a, b :: a in entries && b in entries && a.role.Named? && b.role.Named? && a.id == b.id ==>
          a.role == b.role)
    && (forall a, b ::
          a in entries && b in entries && a.role.Named? && b.role.Named? && NameKeyOf(a) == NameKeyOf(b) ==>
          a.role.name == b.role.name)
  }

  /** Every candidate is also linked in a usable way. */
  ghost predicate Reconciled(entries: seq<Entry>) {
    forall a :: a in entries && IsCandidate(a) ==> exists b :: b in entries && IsUsable(b) && b.id == a.id
  }

  ghost predicate Clean(entries: seq<Entry>) { Consistent(entries) && Reconciled(entries) }

  /** The dictionaries hold exactly what the entries read so far say. */
  ghost predicate RemembersSpecs(specs: map<Identity, (string, string)>, entries: seq<Entry>) {
    && (forall e :: e in entries && e.role.Named? ==> e.id in specs && specs[e.id] == (e.role.code, e.role.name))
    && (forall id :: id in specs ==> exists e :: e in entries && e.role.Named? && e.id == id)
  }

  ghost predicate RemembersNames(seen: map<NameKey, string>, entries: seq<Entry>) {
    && (forall e :: e in entries && e.role.Named? ==> NameKeyOf(e) in seen && seen[NameKeyOf(e)] == e.role.name)
    && (forall key :: key in seen ==> exists e :: e in entries && e.role.Named? && NameKeyOf(e) == key)
  }

  ghost predicate RemembersUids(seenUids: set<UidKey>, entries: seq<Entry>) {
    forall key :: key in seenUids <==> exists e :: e in entries && IsUsable(e) && (e.cid, e.uid) == key
  }

  ghost predicate RemembersValid(valid: set<Identity>, entries: seq<Entry>) {
    forall id :: id in valid <==> exists e :: e in entries && IsUsable(e) && e.id == id
  }

  ghost predicate ListsCandidates(candidates: set<Identity>, entries: seq<Entry>) {
    forall id :: id in candidates <==> exists e :: e in entries && IsCandidate(e) && e.id == id
  }

  ghost predicate Remembers(st: State, entries: seq<Entry>) {
    && st.conflicts == 0 && st.found.clashes == 0
    && RemembersSpecs(st.specs, entries) && RemembersNames(st.found.seen, entries)
    && RemembersUids(st.found.seenUids, entries) && RemembersValid(st.valid, entries)
  }

  // ---------------------------------------------------------------- one more entry

  lemma NamesStep(f: Found, entries: seq<Entry>, e: Entry)
    requires RemembersNames(f.seen, entries) && e.role.Named?
    ensures (exists p :: p in entries && p.role.Named? && NameKeyOf(p) == NameKeyOf(e) && p.role.name != e.role.name)
       <==> AddNamed(f, e).clashes == f.clashes + 1
    ensures AddNamed(f, e).clashes == f.clashes ==> RemembersNames(AddNamed(f, e).seen, entries + [e])
  {
    if NameKeyOf(e) in f.seen {
      var p :| p in entries && p.role.Named? && NameKeyOf(p) == NameKeyOf(e);
    }
  }

  lemma UidsStep(f: Found, entries: seq<Entry>, e: Entry)
    requires RemembersUids(f.seenUids, entries) && IsUsable(e)
    requires e.role.Named? && NameKeyOf(e) in f.seen ==> (e.cid, e.uid) in f.seenUids
    ensures RemembersUids(AddEntry(f, e).seenUids, entries + [e])
  {
    assert AddEntry(f, e).seenUids == f.seenUids + {(e.cid, e.uid)};
    forall key ensures key in AddEntry(f, e).seenUids
              <==> exists p :: p in entries + [e] && IsUsable(p) && (p.cid, p.uid) == key {
      assert e in entries + [e];
    }
  }

  lemma SpecsStep(specs: map<Identity, (string, string)>, entries: seq<Entry>, e: Entry)
    requires RemembersSpecs(specs, entries) && e.role.Named?
    ensures (exists p :: p in entries && p.role.Named? && p.id == e.id && p.role != e.role)
       <==> e.id in specs && specs[e.id] != (e.role.code, e.role.name)
    ensures !(exists p :: p in entries && p.role.Named? && p.id == e.id && p.role != e.role) ==>
              RemembersSpecs(specs[e.id := (e.role.code, e.role.name)], entries + [e])
  {
    if e.id in specs {
      var p :| p in entries && p.role.Named? && p.id == e.id;
    }
  }
}
