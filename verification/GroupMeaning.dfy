/**
What the links of a vehicle page say about its groups, written on their query pairs and texts: which
group a link shows, whether it names it, and what a page without contradictions lists.
*/
module GroupMeaning {
  import opened Wrappers
  import opened Links
  import opened LinkMeaning
  import opened Text
  import opened GroupParse
  import opened GroupOrder

  // ---------------------------------------------------------------- texts

  /** Three or four digits, or capitals and digits, white space, and digits. */
  ghost predicate CodeForm(code: string) {
    || (3 <= |code| <= 4 && AllDigits(code))
    || exists i: nat, j: nat :: CodeParts(code, i, j)
  }

  predicate CodeParts(code: string, i: nat, j: nat) {
    && 0 < i < j < |code|
    && (forall k :: 0 <= k < i ==> '0' <= code[k] <= '9' || 'A' <= code[k] <= 'Z')
    && (forall k :: i <= k < j ==> IsSpace(code[k]))
    && AllDigits(code[j..])
  }

  /** The text is a code, a colon and a name on one line; only white space may surround the name. */
  ghost predicate Spells(text: string, code: string, name: string) {
    exists k: nat, from: nat :: ColonAt(text, k, from) && code == text[..k] && CodeForm(code)
      && name == Strip(text[from..]) && name != ""
  }

  /** The first colon is at `k`, and the first other character after white space at `from`; no line break
      follows but one at the very end. */
  predicate ColonAt(text: string, k: nat, from: nat) {
    && k < from <= |text| && text[k] == ':' && (forall i :: 0 <= i < k ==> text[i] != ':')
    && (forall i :: k < i < from ==> IsSpace(text[i])) && (from < |text| ==> !IsSpace(text[from]))
    && (forall i :: from <= i < |text| - 1 ==> text[i] != '\n')
  }

  // ---------------------------------------------------------------- links

  /** A unit link of another brand's or vehicle's page. */
  ghost predicate Stranger(ctx: Context, a: Anchor) {
    a.link.endpoint == Unit && !(OfBrand(a.link, ctx.brand) && OfVehicle(a.link, ctx.expectedVid))
  }

  ghost predicate OwnLink(ctx: Context, a: Anchor) {
    a.link.endpoint == Unit && OfBrand(a.link, ctx.brand) && OfVehicle(a.link, ctx.expectedVid)
  }

  /** The link shows the group `uid` of category `cid`, which may be left out for the default one. */
  ghost predicate ShowsGroup(ctx: Context, a: Anchor, cid: string, uid: string) {
    && OwnLink(ctx, a) && Says(a.link, "uid", uid)
    && (Says(a.link, "cid", cid) || (Silent(a.link, "cid") && cid == ctx.defaultCid))
    && (ctx.expectedCid.Some? ==> cid == ctx.expectedCid.value)
  }

  ghost predicate Pictures(ctx: Context, a: Anchor, cid: string, uid: string) {
    ShowsGroup(ctx, a, cid, uid) && a.text == ""
  }

  ghost predicate Names(ctx: Context, a: Anchor, cid: string, uid: string, code: string, name: string) {
    ShowsGroup(ctx, a, cid, uid) && a.text != "" && Spells(a.text, code, name)
  }

  ghost predicate Usable(ctx: Context, a: Anchor) {
    exists cid, uid :: Pictures(ctx, a, cid, uid) || NamesAny(ctx, a, cid, uid)
  }

  ghost predicate NamesAny(ctx: Context, a: Anchor, cid: string, uid: string) {
    exists code, name :: Names(ctx, a, cid, uid, code, name)
  }

  ghost predicate Same(a: Anchor, b: Anchor) {
    SameTarget(a.link, b.link, ["c", "ssd", "vid", "cid", "uid"], ["uid"])
  }

  // ---------------------------------------------------------------- texts are read as they are spelled

  lemma {:induction false} SkipCodeStops(s: string, i: nat)
    requires i <= |s|
    ensures var j := SkipCode(s, i);
      (forall k :: i <= k < j ==> IsCodeChar(s[k])) && (j < |s| ==> !IsCodeChar(s[j]))
    decreases |s| - i
  {
    if i < |s| && IsCodeChar(s[i]) { SkipCodeStops(s, i + 1); }
  }

  lemma {:induction false} SpacesStop(s: string, i: nat)
    requires i <= |s|
    ensures var j := SkipSpaces(s, i);
      (forall k :: i <= k < j ==> IsSpace(s[k])) && (j < |s| ==> !IsSpace(s[j]))
    decreases |s| - i
  {
    hide IsSpace;
    if i < |s| && IsSpace(s[i]) { SpacesStop(s, i + 1); }
  }

  lemma {:induction false} ColonStops(s: string, i: nat)
    requires i <= |s|
    ensures var j := FindColon(s, i);
      (forall k :: i <= k < j ==> s[k] != ':') && (j < |s| ==> s[j] == ':')
    decreases |s| - i
  {
    if i < |s| && s[i] != ':' { ColonStops(s, i + 1); }
  }

  lemma CodeIff(code: string)
    ensures IsGroupCode(code) <==> CodeForm(code)
  {
    hide IsSpace;
    var i := SkipCode(code, 0);
    var j := SkipSpaces(code, i);
    SkipCodeStops(code, 0);
    SpacesStop(code, i);
    DigitsAndCodesAreNoSpace();
    if exists m: nat, n: nat :: CodeParts(code, m, n) {
      var m: nat, n: nat :| CodeParts(code, m, n);
      assert code[n..][0] == code[n];
      assert IsSpace(code[m]) && !IsSpace(code[n]);
      assert m == i && n == j;
    }
    if 0 < i < j < |code| && AllDigits(code[j..]) { assert CodeParts(code, i, j); }
  }

  lemma DigitsAndCodesAreNoSpace()
    ensures forall c :: IsSpace(c) ==> !IsCodeChar(c)
  {
  }

  /** A text is recognised exactly when it is spelled that way. */
  lemma SpelledIff(text: string, code: string, name: string)
    ensures GroupText(text) == Some((code, name)) <==> Spells(text, code, name)
  {
    hide IsSpace, IsGroupCode, CodeForm, Strip;
    var k := FindColon(text, 0);
    ColonStops(text, 0);
    if k < |text| {
      var from := SkipSpaces(text, k + 1);
      SpacesStop(text, k + 1);
      CodeIff(text[..k]);
      var rest := text[from..];
      assert (exists i :: 0 <= i < |rest| - 1 && rest[i] == '\n')
        <==> exists i :: from <= i < |text| - 1 && text[i] == '\n' by {
        LineBreaks(text, from);
      }
      if GroupText(text) == Some((code, name)) { assert ColonAt(text, k, from); }
      if Spells(text, code, name) {
        var m: nat, n: nat :| ColonAt(text, m, n) && code == text[..m] && CodeForm(code)
          && name == Strip(text[n..]) && name != "";
        assert m == k && n == from;
      }
    }
  }

  lemma LineBreaks(text: string, from: nat)
    requires from <= |text|
    ensures (exists i :: 0 <= i < |text[from..]| - 1 && text[from..][i] == '\n')
       <==> exists i :: from <= i < |text| - 1 && text[i] == '\n'
  {
    var rest := text[from..];
    if i :| 0 <= i < |rest| - 1 && rest[i] == '\n' { assert text[from + i] == '\n'; }
    if i :| from <= i < |text| - 1 && text[i] == '\n' { assert rest[i - from] == '\n'; }
  }

  // ---------------------------------------------------------------- links are classified as they are written

  lemma ShownIff(ctx: Context, a: Anchor, cid: string, uid: string)
    ensures OwnLink(ctx, a) <==> a.link.endpoint.Unit? && Classify(ctx, a).value.role != Foreign
    ensures Stranger(ctx, a) <==> a.link.endpoint.Unit? && Classify(ctx, a).value.role == Foreign
    ensures ShowsGroup(ctx, a, cid, uid) <==>
      && OwnLink(ctx, a) && Qs(a.link, "uid") == Some(uid)
      && cid == (if Qs(a.link, "cid").Some? then Qs(a.link, "cid").value else ctx.defaultCid)
      && (ctx.expectedCid.Some? ==> cid == ctx.expectedCid.value)
  {
    hide GroupText, CandidateIdentity, Qs, OfBrand, OfVehicle, Says, Silent, ContextMismatch;
    OfBrandIff(a.link, ctx.brand);
    OfVehicleIff(a.link, ctx.expectedVid);
    SaysIff(a.link, "uid", uid);
    SaysIff(a.link, "cid", cid);
  }

  /** The role, category and number that the parser gives a link are what the link says. */
  lemma ClassifiedIff(ctx: Context, a: Anchor, cid: string, uid: string, code: string, name: string)
    ensures Pictures(ctx, a, cid, uid)
       <==> exists e :: Classify(ctx, a) == Some(e) && e.role == Picture && e.cid == cid && e.uid == uid
    ensures Names(ctx, a, cid, uid, code, name)
       <==> exists e :: Classify(ctx, a) == Some(e) && e.role == Named(code, name) && e.cid == cid && e.uid == uid
    ensures Stranger(ctx, a) <==> exists e :: Classify(ctx, a) == Some(e) && e.role == Foreign
    ensures OwnLink(ctx, a) <==> exists e :: Classify(ctx, a) == Some(e) && e.role != Foreign
  {
    hide GroupText, CandidateIdentity, Qs, OfBrand, OfVehicle, Says, Silent, Spells, OwnLink, Stranger, ContextMismatch;
    ShownIff(ctx, a, cid, uid);
    hide ShowsGroup;
    SpelledIff(a.text, code, name);
  }

  // ---------------------------------------------------------------- the whole page

  ghost function Strangers(ctx: Context, anchors: seq<Anchor>): set<int> {
    set n | 0 <= n < |anchors| && Stranger(ctx, anchors[n])
  }

  /** No two links to one target carry different texts. */
  ghost predicate OneTextEach(ctx: Context, anchors: seq<Anchor>) {
    forall a, b :: a in anchors && b in anchors && Same(a, b) ==> SameText(ctx, a, b)
  }

  ghost predicate SameText(ctx: Context, a: Anchor, b: Anchor) {
    forall cid, uid, code, name, cid', uid', code', name' ::
      Names(ctx, a, cid, uid, code, name) && Names(ctx, b, cid', uid', code', name') ==> code == code' && name == name'
  }

  /** No two links give one group and code two names. */
  ghost predicate OneNameEach(ctx: Context, anchors: seq<Anchor>) {
    forall a, b, cid, uid, code, name, name' ::
      a in anchors && b in anchors && Names(ctx, a, cid, uid, code, name) && Names(ctx, b, cid, uid, code, name') ==>
        name == name'
  }

  /** Every link to a group of this vehicle is matched by a usable link to its target. */
  ghost predicate AllMatched(ctx: Context, anchors: seq<Anchor>) {
    forall a :: a in anchors && OwnLink(ctx, a) ==> exists b :: b in anchors && Usable(ctx, b) && Same(a, b)
  }

  /** The page names the group, or it pictures the group and names nothing for it. */
  ghost predicate ShownOn(ctx: Context, anchors: seq<Anchor>, q: Identified) {
    if q.code != "" then exists a :: a in anchors && Names(ctx, a, q.cid, q.uid, q.code, q.name)
    else
      && q.name == "" && (exists a :: a in anchors && Pictures(ctx, a, q.cid, q.uid))
      && !exists a :: a in anchors && NamesAny(ctx, a, q.cid, q.uid)
  }

  ghost predicate EntryOf(ctx: Context, a: Anchor, e: Entry) { Classify(ctx, a) == Some(e) }

  lemma NamedEntryIff(ctx: Context, a: Anchor, e: Entry)
    requires EntryOf(ctx, a, e)
    ensures forall cid, uid, code, name :: Names(ctx, a, cid, uid, code, name) <==>
      e.role == Named(code, name) && e.cid == cid && e.uid == uid
    ensures forall cid, uid :: Pictures(ctx, a, cid, uid) <==> e.role == Picture && e.cid == cid && e.uid == uid
    ensures Usable(ctx, a) <==> IsUsable(e)
    ensures OwnLink(ctx, a) <==> IsCandidate(e)
    ensures Stranger(ctx, a) <==> e.role == Foreign
  {
    hide Classify, Names, Pictures, OwnLink, Stranger;
    forall cid, uid, code, name
      ensures Names(ctx, a, cid, uid, code, name) <==> e.role == Named(code, name) && e.cid == cid && e.uid == uid
      ensures Pictures(ctx, a, cid, uid) <==> e.role == Picture && e.cid == cid && e.uid == uid
    {
      ClassifiedIff(ctx, a, cid, uid, code, name);
    }
    forall cid, uid ensures Pictures(ctx, a, cid, uid) <==> e.role == Picture && e.cid == cid && e.uid == uid {
      ClassifiedIff(ctx, a, cid, uid, "", "");
    }
    ClassifiedIff(ctx, a, "", "", "", "");
    if IsUsable(e) {
      if e.role.Named? {
        assert Names(ctx, a, e.cid, e.uid, e.role.code, e.role.name);
        assert NamesAny(ctx, a, e.cid, e.uid);
      } else {
        assert Pictures(ctx, a, e.cid, e.uid);
      }
    }
  }

  /** A link that says anything about groups has an entry. */
  lemma HasEntry(ctx: Context, a: Anchor)
    ensures a.link.endpoint.Unit? ==> exists e :: EntryOf(ctx, a, e)
    ensures !a.link.endpoint.Unit? ==> !OwnLink(ctx, a) && !Stranger(ctx, a) && !Usable(ctx, a)
    ensures forall cid, uid, code, name :: !a.link.endpoint.Unit? ==>
      !Names(ctx, a, cid, uid, code, name) && !Pictures(ctx, a, cid, uid)
  {
    hide Spells, Says, Silent, OfBrand, OfVehicle;
    if a.link.endpoint.Unit? { assert EntryOf(ctx, a, Classify(ctx, a).value); }
  }

  lemma SameIff(ctx: Context, a: Anchor, b: Anchor, x: Entry, y: Entry)
    requires EntryOf(ctx, a, x) && EntryOf(ctx, b, y)
    ensures Same(a, b) <==> x.id == y.id
  {
    hide SameTarget, GroupText, ContextMismatch, Qs, CandidateIdentity;
    assert IDENTITY_KEYS[4] == "uid";
    SameTargetIff(a.link, b.link, ["c", "ssd", "vid", "cid", "uid"], ["uid"]);
  }

  lemma MemberOf(ctx: Context, anchors: seq<Anchor>, a: Anchor) returns (e: Entry)
    requires a in anchors && a.link.endpoint.Unit?
    ensures EntryOf(ctx, a, e) && e in Entries(ctx, anchors)
  {
    hide Classify;
    HasEntry(ctx, a);
    e :| EntryOf(ctx, a, e);
    EntriesMember(ctx, anchors, e);
  }

  lemma LinkOf(ctx: Context, anchors: seq<Anchor>, e: Entry) returns (a: Anchor)
    requires e in Entries(ctx, anchors)
    ensures a in anchors && EntryOf(ctx, a, e) && a.link.endpoint.Unit?
  {
    EntriesMember(ctx, anchors, e);
    a :| a in anchors && Classify(ctx, a) == Some(e);
  }

  lemma NamesIsUnit(ctx: Context, a: Anchor, cid: string, uid: string, code: string, name: string)
    ensures Names(ctx, a, cid, uid, code, name) ==> a.link.endpoint.Unit?
  {
  }

  lemma TextsIff(ctx: Context, anchors: seq<Anchor>)
    requires Consistent(Entries(ctx, anchors))
    ensures OneTextEach(ctx, anchors) && OneNameEach(ctx, anchors)
  {
    hide EntryOf, Names, Same, Entries, Consistent;
    forall a, b, cid, uid, code, name, cid', uid', code', name'
      | a in anchors && b in anchors && Names(ctx, a, cid, uid, code, name) && Names(ctx, b, cid', uid', code', name')
      ensures Same(a, b) ==> code == code' && name == name'
      ensures cid == cid' && uid == uid' && code == code' ==> name == name'
    {
      NamesIsUnit(ctx, a, cid, uid, code, name);
      NamesIsUnit(ctx, b, cid', uid', code', name');
      var x := MemberOf(ctx, anchors, a);
      var y := MemberOf(ctx, anchors, b);
      NamedEntryIff(ctx, a, x);
      NamedEntryIff(ctx, b, y);
      SameIff(ctx, a, b, x, y);
      ConsistentPair(Entries(ctx, anchors), x, y);
    }
  }

  lemma ConsistentPair(entries: seq<Entry>, x: Entry, y: Entry)
    requires Consistent(entries) && x in entries && y in entries && x.role.Named? && y.role.Named?
    ensures x.id == y.id ==> x.role == y.role
    ensures NameKeyOf(x) == NameKeyOf(y) ==> x.role.name == y.role.name
  {
  }

  lemma TextsMakeConsistent(ctx: Context, anchors: seq<Anchor>)
    requires OneTextEach(ctx, anchors) && OneNameEach(ctx, anchors)
    ensures Consistent(Entries(ctx, anchors))
  {
    hide EntryOf, Names, Same, Entries;
    var entries := Entries(ctx, anchors);
    forall x, y | x in entries && y in entries && x.role.Named? && y.role.Named?
      ensures x.id == y.id ==> x.role == y.role
      ensures NameKeyOf(x) == NameKeyOf(y) ==> x.role.name == y.role.name
    {
      var a := LinkOf(ctx, anchors, x);
      var b := LinkOf(ctx, anchors, y);
      NamedEntryIff(ctx, a, x);
      NamedEntryIff(ctx, b, y);
      SameIff(ctx, a, b, x, y);
      assert Names(ctx, a, x.cid, x.uid, x.role.code, x.role.name);
      assert Names(ctx, b, y.cid, y.uid, y.role.code, y.role.name);
    }
  }

  lemma MatchedIff(ctx: Context, anchors: seq<Anchor>)
    ensures AllMatched(ctx, anchors) <==> Reconciled(Entries(ctx, anchors))
  {
    hide EntryOf, Usable, OwnLink, Same, Entries;
    var entries := Entries(ctx, anchors);
    if Reconciled(entries) {
      forall a | a in anchors && OwnLink(ctx, a) ensures exists b :: b in anchors && Usable(ctx, b) && Same(a, b) {
        HasEntry(ctx, a);
        var x := MemberOf(ctx, anchors, a);
        NamedEntryIff(ctx, a, x);
        var y :| y in entries && IsUsable(y) && y.id == x.id;
        var b := LinkOf(ctx, anchors, y);
        NamedEntryIff(ctx, b, y);
        SameIff(ctx, a, b, x, y);
      }
    }
    if AllMatched(ctx, anchors) {
      forall x | x in entries && IsCandidate(x) ensures exists y :: y in entries && IsUsable(y) && y.id == x.id {
        var a := LinkOf(ctx, anchors, x);
        NamedEntryIff(ctx, a, x);
        var b :| b in anchors && Usable(ctx, b) && Same(a, b);
        HasEntry(ctx, b);
        var y := MemberOf(ctx, anchors, b);
        NamedEntryIff(ctx, b, y);
        SameIff(ctx, a, b, x, y);
      }
    }
  }

  /** A page is faultless exactly when no target has two texts, no group two names, and every link to a
      group is matched. */
  lemma FaultlessIff(ctx: Context, anchors: seq<Anchor>)
    ensures ParseGroups(ctx, anchors).malformed == 0
       <==> OneTextEach(ctx, anchors) && OneNameEach(ctx, anchors) && AllMatched(ctx, anchors)
  {
    hide OneTextEach, OneNameEach, AllMatched, Run, Consistent, Reconciled, Entries;
    MalformedIffNotClean(Entries(ctx, anchors));
    MatchedIff(ctx, anchors);
    if Consistent(Entries(ctx, anchors)) { TextsIff(ctx, anchors); }
    if OneTextEach(ctx, anchors) && OneNameEach(ctx, anchors) { TextsMakeConsistent(ctx, anchors); }
  }

  lemma NamedOnIff(ctx: Context, anchors: seq<Anchor>, cid: string, uid: string, code: string, name: string)
    ensures (exists a :: a in anchors && Names(ctx, a, cid, uid, code, name)) <==>
      exists e :: e in Entries(ctx, anchors) && e.role == Named(code, name) && e.cid == cid && e.uid == uid
  {
    hide EntryOf, Names, Entries;
    if a :| a in anchors && Names(ctx, a, cid, uid, code, name) {
      NamesIsUnit(ctx, a, cid, uid, code, name);
      var e := MemberOf(ctx, anchors, a);
      NamedEntryIff(ctx, a, e);
    }
    if e :| e in Entries(ctx, anchors) && e.role == Named(code, name) && e.cid == cid && e.uid == uid {
      var a := LinkOf(ctx, anchors, e);
      NamedEntryIff(ctx, a, e);
      assert Names(ctx, a, cid, uid, code, name);
    }
  }

  lemma NamedAnyIff(ctx: Context, anchors: seq<Anchor>, cid: string, uid: string)
    ensures (exists a :: a in anchors && NamesAny(ctx, a, cid, uid)) <==>
      exists e :: e in Entries(ctx, anchors) && e.role.Named? && e.cid == cid && e.uid == uid
  {
    hide EntryOf, Names, Entries;
    if a :| a in anchors && NamesAny(ctx, a, cid, uid) {
      var code, name :| Names(ctx, a, cid, uid, code, name);
      NamedOnIff(ctx, anchors, cid, uid, code, name);
    }
    if e :| e in Entries(ctx, anchors) && e.role.Named? && e.cid == cid && e.uid == uid {
      NamedOnIff(ctx, anchors, cid, uid, e.role.code, e.role.name);
      var a :| a in anchors && Names(ctx, a, cid, uid, e.role.code, e.role.name);
      assert NamesAny(ctx, a, cid, uid);
    }
  }

  lemma PicturedOnIff(ctx: Context, anchors: seq<Anchor>, cid: string, uid: string)
    ensures (exists a :: a in anchors && Pictures(ctx, a, cid, uid)) <==>
      exists e :: e in Entries(ctx, anchors) && e.role.Picture? && e.cid == cid && e.uid == uid
  {
    hide EntryOf, Pictures, Entries;
    if a :| a in anchors && Pictures(ctx, a, cid, uid) {
      HasEntry(ctx, a);
      var e := MemberOf(ctx, anchors, a);
      NamedEntryIff(ctx, a, e);
    }
    if e :| e in Entries(ctx, anchors) && e.role.Picture? && e.cid == cid && e.uid == uid {
      var a := LinkOf(ctx, anchors, e);
      NamedEntryIff(ctx, a, e);
    }
  }

  lemma DeclaredIff(ctx: Context, anchors: seq<Anchor>, q: Identified)
    ensures Declared(Entries(ctx, anchors), q) <==> ShownOn(ctx, anchors, q)
  {
    hide Names, Pictures, NamesAny, Entries;
    NamedOnIff(ctx, anchors, q.cid, q.uid, q.code, q.name);
    NamedAnyIff(ctx, anchors, q.cid, q.uid);
    PicturedOnIff(ctx, anchors, q.cid, q.uid);
  }

  /** The groups of a faultless page are those it shows. */
  lemma FaultlessGroupsAreShown(ctx: Context, anchors: seq<Anchor>, q: Identified)
    requires OneTextEach(ctx, anchors) && OneNameEach(ctx, anchors) && AllMatched(ctx, anchors)
    ensures Lists(ParseGroups(ctx, anchors).groups, q) <==> ShownOn(ctx, anchors, q)
  {
    hide OneTextEach, OneNameEach, AllMatched, Run, Clean, Lists, Declared, ShownOn, Entries;
    FaultlessIff(ctx, anchors);
    MalformedIffNotClean(Entries(ctx, anchors));
    EntriesCoded(ctx, anchors);
    CleanGroupsAreDeclared(Entries(ctx, anchors), q);
    DeclaredIff(ctx, anchors, q);
  }

  // ---------------------------------------------------------------- on every page

  function ForeignCount(entries: seq<Entry>): nat {
    if entries == [] then 0
    else ForeignCount(entries[..|entries| - 1]) + if entries[|entries| - 1].role.Foreign? then 1 else 0
  }

  lemma {:induction false} SkippedIsForeign(entries: seq<Entry>)
    ensures Run(entries).found.skipped == ForeignCount(entries)
  {
    if entries != [] { SkippedIsForeign(entries[..|entries| - 1]); }
  }

  lemma {:induction false} StrangersAre(ctx: Context, anchors: seq<Anchor>)
    ensures ForeignCount(Entries(ctx, anchors)) == |Strangers(ctx, anchors)|
  {
    hide Classify, Stranger;
    if anchors != [] {
      var n := |anchors| - 1;
      var before, a, entries := anchors[..n], anchors[n], Entries(ctx, anchors);
      StrangersAre(ctx, before);
      ClassifiedIff(ctx, a, "", "", "", "");
      assert Strangers(ctx, anchors) == Strangers(ctx, before) + if Stranger(ctx, a) then {n} else {};
      var e := Classify(ctx, a);
      if e.Some? {
        assert entries[..|entries| - 1] == Entries(ctx, before);
      } else {
        assert entries == Entries(ctx, before);
      }
    } else {
      assert Strangers(ctx, anchors) == {};
    }
  }

  /** The links skipped are the unit links of other pages, whatever else the page holds. */
  lemma SkippedAreStrangers(ctx: Context, anchors: seq<Anchor>)
    ensures ParseGroups(ctx, anchors).skipped == |Strangers(ctx, anchors)|
  {
    hide Run, Entries, ForeignCount;
    SkippedIsForeign(Entries(ctx, anchors));
    StrangersAre(ctx, anchors);
  }

  /** A listed group has the address of a usable link to it, and its text is one that a link gives it. */
  ghost predicate Sourced(entries: seq<Entry>, g: Group) {
    && (exists e :: e in entries && IsUsable(e) && e.link == g.link && e.cid == g.cid && e.uid == g.uid)
    && (g.code != "" ==>
          exists e :: e in entries && e.role == Named(g.code, g.name) && e.cid == g.cid && e.uid == g.uid)
    && (g.code == "" ==>
         g.name == "" && exists e :: e in entries && e.role.Picture? && e.cid == g.cid && e.uid == g.uid)
  }

  lemma SourcedMore(entries: seq<Entry>, e: Entry, g: Group)
    requires Sourced(entries, g)
    ensures Sourced(entries + [e], g)
  {
    assert forall x :: x in entries ==> x in entries + [e];
  }

  lemma AddedIsSourced(f: Found, entries: seq<Entry>, e: Entry)
    requires e in entries && (e.role.Named? ==> e.role.code != "") && forall g :: g in f.groups ==> Sourced(entries, g)
    ensures forall g :: g in AddEntry(f, e).groups ==> Sourced(entries, g)
  {
    forall g | g in AddEntry(f, e).groups ensures Sourced(entries, g) {
      if g !in f.groups {
        if e.role.Named? {
          var i := FirstPicture(f.groups, e.cid, e.uid);
          if i < |f.groups| { assert f.groups[i] in f.groups && Sourced(entries, f.groups[i]); }
        }
      }
    }
  }

  lemma {:induction false} GroupsAreSourced(entries: seq<Entry>)
    requires Coded(entries)
    ensures forall g :: g in Run(entries).found.groups ==> Sourced(entries, g)
  {
    if entries != [] {
      var prefix, e := entries[..|entries| - 1], entries[|entries| - 1];
      assert entries == prefix + [e] && e in entries;
      GroupsAreSourced(prefix);
      hide Sourced, AddEntry;
      forall g | g in Run(prefix).found.groups ensures Sourced(entries, g) { SourcedMore(prefix, e, g); }
      AddedIsSourced(Run(prefix).found, entries, e);
    }
  }

  /** Whatever the page, each group it lists has the address of a link to it and a text that a link to it
      carries, or a picture when it has none. */
  lemma ListedGroupsHaveLinks(ctx: Context, anchors: seq<Anchor>, g: Group)
    requires g in ParseGroups(ctx, anchors).groups
    ensures exists a :: a in anchors && a.link == g.link && ShowsGroup(ctx, a, g.cid, g.uid)
    ensures g.code != "" ==> exists a :: a in anchors && Names(ctx, a, g.cid, g.uid, g.code, g.name)
    ensures g.code == "" ==> g.name == "" && exists a :: a in anchors && Pictures(ctx, a, g.cid, g.uid)
  {
    hide Run, Entries, ShowsGroup, Names, Pictures;
    var entries := Entries(ctx, anchors);
    EntriesCoded(ctx, anchors);
    GroupsAreSourced(entries);
    NamedOnIff(ctx, anchors, g.cid, g.uid, g.code, g.name);
    PicturedOnIff(ctx, anchors, g.cid, g.uid);
    var e :| e in entries && IsUsable(e) && e.link == g.link && e.cid == g.cid && e.uid == g.uid;
    var a := LinkOf(ctx, anchors, e);
    UsableShows(ctx, a, e);
  }

  lemma UsableShows(ctx: Context, a: Anchor, e: Entry)
    requires EntryOf(ctx, a, e) && IsUsable(e)
    ensures ShowsGroup(ctx, a, e.cid, e.uid) && a.link == e.link
  {
    hide Spells, ShowsGroup, OwnLink;
    NamedEntryIff(ctx, a, e);
    if e.role.Named? {
      assert Names(ctx, a, e.cid, e.uid, e.role.code, e.role.name);
    } else {
      assert Pictures(ctx, a, e.cid, e.uid);
    }
    EntryHasLink(ctx, a, e);
  }

  lemma EntryHasLink(ctx: Context, a: Anchor, e: Entry)
    requires EntryOf(ctx, a, e)
    ensures a.link == e.link
  {
  }

  /** Whatever the page, every picture has its group listed. */
  lemma PicturesAreListed(ctx: Context, anchors: seq<Anchor>, a: Anchor, cid: string, uid: string)
    requires a in anchors && Pictures(ctx, a, cid, uid)
    ensures exists g :: g in ParseGroups(ctx, anchors).groups && g.cid == cid && g.uid == uid
  {
    hide Run, Entries, Pictures;
    var entries := Entries(ctx, anchors);
    PicturedOnIff(ctx, anchors, cid, uid);
    var e :| e in entries && e.role.Picture? && e.cid == cid && e.uid == uid;
    EntriesCoded(ctx, anchors);
    RunSound(entries);
    PicturesSeen(entries, e);
    MirroredGroup(Run(entries).found, (cid, uid));
  }

  lemma MirroredGroup(f: Found, key: UidKey)
    requires Sound(f) && key in f.seenUids
    ensures exists g :: g in f.groups && g.cid == key.0 && g.uid == key.1
  {
    hide Apart, NamesMirror;
    var g :| g in f.groups && UidOf(g) == key;
  }

  lemma {:induction false} PicturesSeen(entries: seq<Entry>, e: Entry)
    requires e in entries && e.role.Picture?
    ensures (e.cid, e.uid) in Run(entries).found.seenUids
  {
    var prefix, last := entries[..|entries| - 1], entries[|entries| - 1];
    assert entries == prefix + [last];
    if e in prefix { PicturesSeen(prefix, e); }
  }
}
