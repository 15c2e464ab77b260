/**
Sanitised replay of the group parser: for a page that parsed without faults, parsing the stored
page gives the same counters and the same public records, although every token was replaced.
*/
module GroupReplay {
  import opened Wrappers
  import opened Links
  import opened Sanitizer
  import opened GroupParse
  import opened GroupOrder

  // ---------------------------------------------------------------- documents

  /** An element with a URL; `text` is present for the links that parsers look at. */
  datatype Element = Element(link: Link, text: Option<string>)

  function LinksOf(page: seq<Element>): (links: seq<Link>)
    ensures |links| == |page| && forall i :: 0 <= i < |page| ==> links[i] == page[i].link
  {
    seq(|page|, i requires 0 <= i < |page| => page[i].link)
  }

  /** The stored form of a page: the same elements with sanitised URLs. */
  function SanitizePage(page: seq<Element>): (stored: seq<Element>)
    ensures |stored| == |page|
  {
    var links := LinksOf(page);
    SanitizedLength(links, map[]);
    var sanitized := SanitizeDocument(links);
    seq(|page|, i requires 0 <= i < |page| => Element(sanitized[i], page[i].text))
  }

  lemma {:induction false} SanitizedLength(links: seq<Link>, aliases: Aliases)
    ensures |SanitizeLinks(links, aliases).0| == |links|
  {
    hide SanitizeQuery;
    if links != [] { SanitizedLength(links[1..], SanitizeQuery(links[0].query, aliases).1); }
  }

  function AnchorsOf(page: seq<Element>): seq<Anchor> {
    if page == [] then [] else
      var n := |page| - 1;
      AnchorsOf(page[..n]) + if page[n].text.Some? then [Anchor(page[n].link, page[n].text.value)] else []
  }

  ghost predicate AllCovered(page: seq<Element>, names: Aliases) {
    forall e :: e in page ==> Covers(e.link.query, names)
  }

  function RenamePage(page: seq<Element>, names: Aliases): (renamed: seq<Element>)
    ensures |renamed| == |page|
    ensures forall i :: 0 <= i < |page| ==> renamed[i] == Element(Rename(page[i].link, names), page[i].text)
  {
    seq(|page|, i requires 0 <= i < |page| => Element(Rename(page[i].link, names), page[i].text))
  }

  lemma PageIsRenamed(page: seq<Element>) returns (names: Aliases)
    ensures Numbered(names) && NotBlank(names) && AllCovered(page, names)
    ensures SanitizePage(page) == RenamePage(page, names)
  {
    hide Numbered, Covers, SanitizeDocument, RenameQuery;
    names := SanitizingIsRenaming(LinksOf(page));
    NumberedNotBlank(names);
    assert forall i :: 0 <= i < |page| ==> LinksOf(page)[i] == page[i].link;
    forall e | e in page ensures Covers(e.link.query, names) {
      var i :| 0 <= i < |page| && page[i] == e;
    }
  }

  // ---------------------------------------------------------------- candidate identities

  function RenameAt(values: seq<Option<string>>, token: nat, names: Aliases): seq<Option<string>>
    requires token < |values|
  {
    values[token := RenameOption(values[token], names)]
  }

  ghost predicate ParserKeys(keys: seq<string>, token: nat) {
    && token < |keys|
    && forall i :: 0 <= i < |keys| ==> IsParserKey(keys[i]) && (keys[i] == "ssd" <==> i == token)
  }

  /** The identity of a renamed link, which may also be the identity of another one. */
  ghost predicate IdRenamed(id: Identity, renamed: Identity, token: nat, names: Aliases) {
    && token < |id.values| == |renamed.values| && renamed.values == RenameAt(id.values, token, names)
    && (id.ByLink? <==> renamed.ByLink?) && (id.ByLink? ==> renamed.link == Rename(id.link, names))
    && (id.values[token].Some? ==> id.values[token].value in names)
  }

  lemma QsRenamed(link: Link, names: Aliases, key: string)
    requires IsParserKey(key) && NotBlank(names) && Covers(link.query, names)
    ensures Qs(Rename(link, names), key) == if key == "ssd" then RenameOption(Qs(link, key), names) else Qs(link, key)
    ensures key == "ssd" && Qs(link, key).Some? ==> Qs(link, key).value in names
  {
    FirstIsRenamed(link.query, names, key);
  }

  lemma IdentityIsRenamed(link: Link, names: Aliases, keys: seq<string>, required: seq<string>, token: nat)
    requires ParserKeys(keys, token) && NotBlank(names) && Covers(link.query, names)
    requires forall key :: key in required ==> IsParserKey(key)
    ensures IdRenamed(CandidateIdentity(link, keys, required), CandidateIdentity(Rename(link, names), keys, required),
                      token, names)
  {
    hide Covers, NotBlank, IsParserKey, Rename, RenameValue, Qs;
    var values, renamed := Values(link, keys), Values(Rename(link, names), keys);
    forall i | 0 <= i < |keys| ensures renamed[i] == if i == token then RenameOption(values[i], names) else values[i] {
      QsRenamed(link, names, keys[i]);
    }
    QsRenamed(link, names, keys[token]);
    assert renamed == RenameAt(values, token, names);
    forall i | 0 <= i < |keys| ensures renamed[i].None? <==> values[i].None? {}
    assert (forall v :: v in values ==> v.None?) <==> (forall v :: v in renamed ==> v.None?) by {
      SameBlanks(values, renamed);
    }
    forall key | key in required ensures Qs(link, key).None? <==> Qs(Rename(link, names), key).None? {
      QsRenamed(link, names, key);
    }
  }

  lemma SameBlanks(a: seq<Option<string>>, b: seq<Option<string>>)
    requires |a| == |b| && forall i :: 0 <= i < |a| ==> (a[i].None? <==> b[i].None?)
    ensures (forall v :: v in a ==> v.None?) <==> (forall v :: v in b ==> v.None?)
  {
    if forall v :: v in a ==> v.None? { assert forall i :: 0 <= i < |b| ==> a[i] in a && b[i].None?; }
    if forall v :: v in b ==> v.None? { assert forall i :: 0 <= i < |a| ==> b[i] in b && a[i].None?; }
  }

  /** Equal identities stay equal; identities made of values only also stay different. */
  lemma RenamedIdsAgree(a: Identity, b: Identity, x: Identity, y: Identity, token: nat, names: Aliases)
    requires Numbered(names) && IdRenamed(a, x, token, names) && IdRenamed(b, y, token, names)
    ensures a == b ==> x == y
    ensures a.ByValues? && b.ByValues? && x == y ==> a == b
  {
    if x == y && a.ByValues? && b.ByValues? {
      assert x.values[token] == y.values[token];
      assert |a.values| == |b.values|;
      assert forall i :: 0 <= i < |a.values| && i != token ==> a.values[i] == x.values[i] && b.values[i] == y.values[i];
      assert a.values[token] == b.values[token];
      assert a.values == b.values;
    }
  }

  // ---------------------------------------------------------------- entries

  ghost predicate EntryRenamed(e: Entry, r: Entry, names: Aliases) {
    && r.role == e.role && r.cid == e.cid && r.uid == e.uid && r.link == Rename(e.link, names)
    && Covers(e.link.query, names) && IdRenamed(e.id, r.id, 1, names)
    && (IsUsable(e) ==> e.id.ByValues?)
  }

  lemma GroupKeysParsed()
    ensures ParserKeys(IDENTITY_KEYS, 1) && IsParserKey("uid") && IsParserKey("c") && IsParserKey("vid")
      && IsParserKey("cid")
    ensures "c" != "ssd" && "vid" != "ssd" && "cid" != "ssd" && "uid" != "ssd"
  {
    assert "c" in PUBLIC_KEYS && "vid" in PUBLIC_KEYS && "cid" in PUBLIC_KEYS && "uid" in PUBLIC_KEYS;
    SsdIsNotPublic();
  }

  lemma ClassifyRenamed(ctx: Context, a: Anchor, names: Aliases)
    requires NotBlank(names) && Covers(a.link.query, names)
    ensures var e, r := Classify(ctx, a), Classify(ctx, Anchor(Rename(a.link, names), a.text));
      (e.Some? <==> r.Some?) && (e.Some? ==> EntryRenamed(e.value, r.value, names))
  {
    hide Covers, NotBlank, GroupText, Qs, IsParserKey, CandidateIdentity, IdRenamed, ParserKeys;
    GroupKeysParsed();
    QsRenamed(a.link, names, "c");
    QsRenamed(a.link, names, "vid");
    QsRenamed(a.link, names, "cid");
    QsRenamed(a.link, names, "uid");
    IdentityIsRenamed(a.link, names, IDENTITY_KEYS, ["uid"], 1);
    if Classify(ctx, a).Some? && IsUsable(Classify(ctx, a).value) { UsableIsByValues(ctx, a); }
  }

  lemma UsableIsByValues(ctx: Context, a: Anchor)
    requires Classify(ctx, a).Some? && IsUsable(Classify(ctx, a).value)
    ensures Classify(ctx, a).value.id.ByValues?
  {
    hide GroupText, ContextMismatch;
    var values := Values(a.link, IDENTITY_KEYS);
    assert values[4] == Qs(a.link, "uid") && values[4] in values;
  }

  ghost predicate EntriesRenamed(entries: seq<Entry>, renamed: seq<Entry>, names: Aliases) {
    |renamed| == |entries| && forall i :: 0 <= i < |entries| ==> EntryRenamed(entries[i], renamed[i], names)
  }

  lemma EntriesSnoc(ctx: Context, anchors: seq<Anchor>, a: Anchor)
    ensures Entries(ctx, anchors + [a])
         == Entries(ctx, anchors) + if Classify(ctx, a).Some? then [Classify(ctx, a).value] else []
  {
    hide Classify;
    assert (anchors + [a])[..|anchors|] == anchors;
  }

  function ElementEntries(ctx: Context, e: Element): seq<Entry> {
    if e.text.None? then [] else
      var entry := Classify(ctx, Anchor(e.link, e.text.value));
      if entry.Some? then [entry.value] else []
  }

  lemma PageEntries(ctx: Context, page: seq<Element>)
    requires page != []
    ensures Entries(ctx, AnchorsOf(page))
         == Entries(ctx, AnchorsOf(page[..|page| - 1])) + ElementEntries(ctx, page[|page| - 1])
  {
    hide Classify, Entries;
    var n := |page| - 1;
    var before := AnchorsOf(page[..n]);
    if page[n].text.Some? {
      EntriesSnoc(ctx, before, Anchor(page[n].link, page[n].text.value));
    } else {
      assert before + [] == before && Entries(ctx, before) + [] == Entries(ctx, before);
    }
  }

  lemma {:induction false} PageEntriesRenamed(ctx: Context, page: seq<Element>, names: Aliases)
    requires NotBlank(names) && AllCovered(page, names)
    ensures EntriesRenamed(Entries(ctx, AnchorsOf(page)), Entries(ctx, AnchorsOf(RenamePage(page, names))), names)
  {
    hide Classify, Covers, NotBlank, EntryRenamed, RenameQuery, Entries, AnchorsOf;
    if page == [] {
      NoEntries(ctx);
    } else {
      var n := |page| - 1;
      var renamed := RenamePage(page, names);
      assert page == page[..n] + [page[n]] && page[n] in page;
      assert renamed[..n] == RenamePage(page[..n], names);
      PageEntriesRenamed(ctx, page[..n], names);
      PageEntries(ctx, page);
      PageEntries(ctx, renamed);
      if page[n].text.Some? { ClassifyRenamed(ctx, Anchor(page[n].link, page[n].text.value), names); }
    }
  }

  lemma NoEntries(ctx: Context)
    ensures Entries(ctx, AnchorsOf([])) == []
  {
  }

  lemma PairStaysConsistent(a: Entry, b: Entry, x: Entry, y: Entry, names: Aliases)
    requires Numbered(names) && EntryRenamed(a, x, names) && EntryRenamed(b, y, names) && a.role.Named? && b.role.Named?
    requires a.id == b.id ==> a.role == b.role
    requires NameKeyOf(a) == NameKeyOf(b) ==> a.role.name == b.role.name
    ensures x.id == y.id ==> x.role == y.role
    ensures NameKeyOf(x) == NameKeyOf(y) ==> x.role.name == y.role.name
  {
    hide Numbered, IdRenamed, Rename, Covers;
    RenamedIdsAgree(a.id, b.id, x.id, y.id, 1, names);
  }

  lemma ConsistentStays(entries: seq<Entry>, renamed: seq<Entry>, names: Aliases)
    requires Numbered(names) && EntriesRenamed(entries, renamed, names) && Consistent(entries)
    ensures Consistent(renamed)
  {
    hide Numbered, EntryRenamed;
    forall x, y | x in renamed && y in renamed && x.role.Named? && y.role.Named?
      ensures x.id == y.id ==> x.role == y.role
      ensures NameKeyOf(x) == NameKeyOf(y) ==> x.role.name == y.role.name
    {
      var i :| 0 <= i < |renamed| && renamed[i] == x;
      var j :| 0 <= j < |renamed| && renamed[j] == y;
      assert entries[i] in entries && entries[j] in entries;
      SameRole(entries[i], x, names);
      SameRole(entries[j], y, names);
      PairStaysConsistent(entries[i], entries[j], x, y, names);
    }
  }

  lemma SameRole(e: Entry, r: Entry, names: Aliases)
    requires EntryRenamed(e, r, names)
    ensures r.role == e.role && IdRenamed(e.id, r.id, 1, names)
  {
  }

  lemma ReconciledStays(entries: seq<Entry>, renamed: seq<Entry>, names: Aliases)
    requires Numbered(names) && EntriesRenamed(entries, renamed, names) && Reconciled(entries)
    ensures Reconciled(renamed)
  {
    hide Numbered, EntryRenamed, IdRenamed;
    forall x | x in renamed && IsCandidate(x) ensures exists y :: y in renamed && IsUsable(y) && y.id == x.id {
      var i :| 0 <= i < |renamed| && renamed[i] == x;
      SameRole(entries[i], x, names);
      assert entries[i] in entries;
      var b :| b in entries && IsUsable(b) && b.id == entries[i].id;
      var j :| 0 <= j < |entries| && entries[j] == b;
      SameRole(b, renamed[j], names);
      RenamedIdsAgree(entries[i].id, b.id, x.id, renamed[j].id, 1, names);
      assert renamed[j] in renamed;
    }
  }

  lemma CleanStaysClean(entries: seq<Entry>, renamed: seq<Entry>, names: Aliases)
    requires Numbered(names) && EntriesRenamed(entries, renamed, names) && Clean(entries)
    ensures Clean(renamed)
  {
    hide Numbered, EntriesRenamed, Consistent, Reconciled;
    ConsistentStays(entries, renamed, names);
    ReconciledStays(entries, renamed, names);
  }

  // ---------------------------------------------------------------- records

  /** The groups as the loop builds them when no candidate carries two texts. */
  function Core(entries: seq<Entry>): Found {
    if entries == [] then NOTHING else AddEntry(Core(entries[..|entries| - 1]), entries[|entries| - 1])
  }

  lemma {:induction false} ConflictFreeIsCore(entries: seq<Entry>)
    requires Run(entries).conflicts == 0
    ensures Run(entries).found == Core(entries)
  {
    hide AddNamed, AddPicture;
    if entries != [] { ConflictFreeIsCore(entries[..|entries| - 1]); }
  }

  ghost predicate GroupRenamed(g: Group, r: Group, names: Aliases) {
    r == g.(link := Rename(g.link, names)) && Covers(g.link.query, names)
  }

  ghost predicate FoundRenamed(f: Found, r: Found, names: Aliases) {
    && |r.groups| == |f.groups| && r == f.(groups := r.groups)
    && forall i :: 0 <= i < |f.groups| ==> GroupRenamed(f.groups[i], r.groups[i], names)
  }

  lemma {:induction false} FirstPictureRenamed(groups: seq<Group>, renamed: seq<Group>, names: Aliases, cid: string,
                                               uid: string)
    requires |renamed| == |groups| && forall i :: 0 <= i < |groups| ==> GroupRenamed(groups[i], renamed[i], names)
    ensures FirstPicture(renamed, cid, uid) == FirstPicture(groups, cid, uid)
  {
    hide Rename, Covers;
    if groups != [] { FirstPictureRenamed(groups[1..], renamed[1..], names, cid, uid); }
  }

  lemma AddEntryRenamed(f: Found, r: Found, e: Entry, s: Entry, names: Aliases)
    requires FoundRenamed(f, r, names) && EntryRenamed(e, s, names)
    ensures FoundRenamed(AddEntry(f, e), AddEntry(r, s), names)
  {
    hide Rename, Covers, IdRenamed;
    FirstPictureRenamed(f.groups, r.groups, names, e.cid, e.uid);
  }

  lemma {:induction false} CoreRenamed(entries: seq<Entry>, renamed: seq<Entry>, names: Aliases)
    requires EntriesRenamed(entries, renamed, names)
    ensures FoundRenamed(Core(entries), Core(renamed), names)
  {
    hide EntryRenamed, AddEntry, GroupRenamed;
    if entries != [] {
      var n := |entries| - 1;
      CoreRenamed(entries[..n], renamed[..n], names);
      AddEntryRenamed(Core(entries[..n]), Core(renamed[..n]), entries[n], renamed[n], names);
    }
  }

  /** A group record without its token and with its public source URL. */
  datatype PublicGroup = PublicGroup(
    code: string, name: string, cid: string, uid: string, vid: Option<string>, url: PublicUrl)

  function PublicGroupOf(g: Group): PublicGroup {
    PublicGroup(g.code, g.name, g.cid, g.uid, Qs(g.link, "vid"), PublicUrlOf(g.link))
  }

  lemma RenamedGroupIsPublic(g: Group, r: Group, names: Aliases)
    requires GroupRenamed(g, r, names) && NotBlank(names)
    ensures PublicGroupOf(r) == PublicGroupOf(g)
  {
    hide Covers, NotBlank, IsParserKey, Qs;
    GroupKeysParsed();
    QsRenamed(g.link, names, "vid");
    PublicPairsKept(g.link.query, names);
  }

  /** Live parse and sanitised replay agree on every page that parses without faults. */
  lemma ReplayPreservesGroups(ctx: Context, page: seq<Element>)
    ensures var live, replay := ParseGroups(ctx, AnchorsOf(page)), ParseGroups(ctx, AnchorsOf(SanitizePage(page)));
      live.malformed == 0 ==>
        && replay.malformed == 0 && replay.skipped == live.skipped && replay.imageOnly == live.imageOnly
        && |replay.groups| == |live.groups|
        && forall i :: 0 <= i < |live.groups| ==> PublicGroupOf(replay.groups[i]) == PublicGroupOf(live.groups[i])
  {
    hide Clean, Run, Core, Numbered, NotBlank, AllCovered, PublicGroupOf, GroupRenamed, EntryRenamed, SanitizePage;
    var names := PageIsRenamed(page);
    var entries, renamed := Entries(ctx, AnchorsOf(page)), Entries(ctx, AnchorsOf(SanitizePage(page)));
    PageEntriesRenamed(ctx, page, names);
    MalformedIffNotClean(entries);
    MalformedIffNotClean(renamed);
    if Clean(entries) {
      CleanStaysClean(entries, renamed, names);
      ConflictFreeIsCore(entries);
      ConflictFreeIsCore(renamed);
      CoreRenamed(entries, renamed, names);
      var f, r := Run(entries).found, Run(renamed).found;
      forall i | 0 <= i < |f.groups| ensures PublicGroupOf(r.groups[i]) == PublicGroupOf(f.groups[i]) {
        RenamedGroupIsPublic(f.groups[i], r.groups[i], names);
      }
    }
  }
}
