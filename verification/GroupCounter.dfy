/**
When the image-only counter of `parse_groups` depends on the order of the links: exactly when some
group is shown both as a picture and as a text.
*/
module GroupCounter {
  import opened Wrappers
  import opened GroupParse
  import opened GroupOrder

  function Uids(entries: seq<Entry>): set<UidKey> {
    set e | e in entries && IsUsable(e) :: (e.cid, e.uid)
  }

  /** The groups that a picture shows. */
  function Pictured(entries: seq<Entry>): set<UidKey> {
    set e | e in entries && e.role.Picture? :: (e.cid, e.uid)
  }

  /** The groups whose first usable link is a picture. */
  function FirstPictures(entries: seq<Entry>): set<UidKey> {
    if entries == [] then {} else
      var prefix, e := entries[..|entries| - 1], entries[|entries| - 1];
      FirstPictures(prefix) + if e.role.Picture? && (e.cid, e.uid) !in Uids(prefix) then {(e.cid, e.uid)} else {}
  }

  /** No group is shown both as a picture and as a text. */
  ghost predicate Separate(entries: seq<Entry>) {
    forall a, b :: a in entries && b in entries && a.role.Picture? && b.role.Named? ==> (a.cid, a.uid) != (b.cid, b.uid)
  }

  lemma {:induction false} FirstPicturesPictured(entries: seq<Entry>)
    ensures FirstPictures(entries) <= Pictured(entries) <= Uids(entries)
    ensures Separate(entries) ==> FirstPictures(entries) == Pictured(entries)
  {
    if entries != [] {
      var prefix, e := entries[..|entries| - 1], entries[|entries| - 1];
      assert entries == prefix + [e];
      FirstPicturesPictured(prefix);
      assert Pictured(entries) == Pictured(prefix) + if e.role.Picture? then {(e.cid, e.uid)} else {};
      assert Separate(entries) ==> Separate(prefix);
      if Separate(entries) && e.role.Picture? && (e.cid, e.uid) in Uids(prefix) {
        var p :| p in prefix && IsUsable(p) && (p.cid, p.uid) == (e.cid, e.uid);
        assert p in entries && e in entries;
      }
    }
  }

  /** On a page without contradictions the counter is the number of groups that a picture shows first. */
  lemma {:induction false} CounterIsFirstPictures(entries: seq<Entry>)
    requires Consistent(entries)
    ensures Run(entries).found.imageOnly == |FirstPictures(entries)|
  {
    hide Consistent, Uids, Fits, Step, RemembersSpecs, RemembersNames, RemembersUids, RemembersValid, SeenHaveUids;
    if entries != [] {
      var prefix, e := entries[..|entries| - 1], entries[|entries| - 1];
      assert entries == prefix + [e];
      ConsistentNext(prefix, e);
      CounterIsFirstPictures(prefix);
      RunRemembers(prefix);
      FirstPicturesPictured(prefix);
      SeenAreUids(Run(prefix).found.seenUids, prefix);
      CounterStep(Run(prefix), e);
    }
  }

  lemma CounterStep(st: State, e: Entry)
    ensures Step(st, e).found.imageOnly
         == st.found.imageOnly + if e.role.Picture? && (e.cid, e.uid) !in st.found.seenUids then 1 else 0
  {
  }

  lemma SeenAreUids(seenUids: set<UidKey>, entries: seq<Entry>)
    requires RemembersUids(seenUids, entries)
    ensures seenUids == Uids(entries)
  {
    forall key ensures key in seenUids <==> key in Uids(entries) {
      assert key in seenUids <==> exists e :: e in entries && IsUsable(e) && (e.cid, e.uid) == key;
    }
  }

  // ---------------------------------------------------------------- two orders

  lemma {:induction false} FirstPicturesJoined(x: seq<Entry>, y: seq<Entry>)
    ensures FirstPictures(x + y) == FirstPictures(x) + (FirstPictures(y) - Uids(x))
  {
    if y == [] {
      assert x + y == x;
    } else {
      var n := |y| - 1;
      assert (x + y)[..|x + y| - 1] == x + y[..n];
      FirstPicturesJoined(x, y[..n]);
      assert Uids(x + y[..n]) == Uids(x) + Uids(y[..n]);
      FirstPicturesPictured(x);
    }
  }

  lemma {:induction false} NoFirstPictures(entries: seq<Entry>)
    requires forall e :: e in entries ==> !e.role.Picture?
    ensures FirstPictures(entries) == {}
  {
    FirstPicturesPictured(entries);
  }

  predicate IsPicture(ctx: Context, a: Anchor) { Classify(ctx, a).Some? && Classify(ctx, a).value.role.Picture? }

  function Chosen(ctx: Context, anchors: seq<Anchor>, pictures: bool): seq<Anchor> {
    if anchors == [] then [] else
      var n := |anchors| - 1;
      Chosen(ctx, anchors[..n], pictures) + if IsPicture(ctx, anchors[n]) == pictures then [anchors[n]] else []
  }

  lemma {:induction false} ChosenSplit(ctx: Context, anchors: seq<Anchor>)
    ensures multiset(Chosen(ctx, anchors, true) + Chosen(ctx, anchors, false)) == multiset(anchors)
  {
    hide IsPicture;
    if anchors != [] {
      var n := |anchors| - 1;
      assert anchors == anchors[..n] + [anchors[n]];
      ChosenSplit(ctx, anchors[..n]);
    }
  }

  lemma {:induction false} ChosenMember(ctx: Context, anchors: seq<Anchor>, pictures: bool, a: Anchor)
    ensures a in Chosen(ctx, anchors, pictures) <==> a in anchors && IsPicture(ctx, a) == pictures
  {
    hide IsPicture;
    if anchors != [] {
      var n := |anchors| - 1;
      assert anchors == anchors[..n] + [anchors[n]];
      ChosenMember(ctx, anchors[..n], pictures, a);
    }
  }

  /** Choosing links is choosing entries. */
  lemma ChosenEntry(ctx: Context, anchors: seq<Anchor>, pictures: bool, e: Entry)
    ensures e in Entries(ctx, Chosen(ctx, anchors, pictures))
         <==> e in Entries(ctx, anchors) && e.role.Picture? == pictures
  {
    hide Classify, Chosen, Entries;
    EntriesMember(ctx, anchors, e);
    EntriesMember(ctx, Chosen(ctx, anchors, pictures), e);
    if a :| a in anchors && Classify(ctx, a) == Some(e) { ChosenMember(ctx, anchors, pictures, a); }
    if a :| a in Chosen(ctx, anchors, pictures) && Classify(ctx, a) == Some(e) {
      ChosenMember(ctx, anchors, pictures, a);
    }
  }

  lemma {:induction false} EntriesJoined(ctx: Context, x: seq<Anchor>, y: seq<Anchor>)
    ensures Entries(ctx, x + y) == Entries(ctx, x) + Entries(ctx, y)
  {
    hide Classify;
    if y == [] {
      assert x + y == x;
    } else {
      var n := |y| - 1;
      assert (x + y)[..|x + y| - 1] == x + y[..n];
      EntriesJoined(ctx, x, y[..n]);
    }
  }

  /** The same links with all pictures first, or with all pictures last. */
  lemma TwoOrders(ctx: Context, anchors: seq<Anchor>)
    ensures var p, t := Chosen(ctx, anchors, true), Chosen(ctx, anchors, false);
      var all, texts := Entries(ctx, anchors), Entries(ctx, t);
      && FirstPictures(Entries(ctx, p + t)) == Pictured(all)
      && FirstPictures(Entries(ctx, t + p)) == Pictured(all) - Uids(texts)
  {
    hide Chosen, Entries, FirstPictures;
    var p, t := Chosen(ctx, anchors, true), Chosen(ctx, anchors, false);
    var all, texts, shown := Entries(ctx, anchors), Entries(ctx, t), Entries(ctx, p);
    EntriesJoined(ctx, p, t);
    EntriesJoined(ctx, t, p);
    FirstPicturesJoined(shown, texts);
    FirstPicturesJoined(texts, shown);
    forall e ensures e in shown <==> e in all && e.role.Picture? { ChosenEntry(ctx, anchors, true, e); }
    forall e ensures e in texts <==> e in all && !e.role.Picture? { ChosenEntry(ctx, anchors, false, e); }
    NoFirstPictures(texts);
    FirstPicturesPictured(shown);
    assert Separate(shown);
    assert Pictured(all) == Pictured(shown);
  }

  // ---------------------------------------------------------------- the theorem

  ghost predicate SameCounter(ctx: Context, a: seq<Anchor>) {
    forall b :: multiset(b) == multiset(a) ==> ParseGroups(ctx, b).imageOnly == ParseGroups(ctx, a).imageOnly
  }

  lemma CleanCounter(ctx: Context, a: seq<Anchor>, b: seq<Anchor>)
    requires ParseGroups(ctx, a).malformed == 0 && multiset(b) == multiset(a)
    ensures ParseGroups(ctx, b).imageOnly == |FirstPictures(Entries(ctx, b))|
    ensures forall e :: e in Entries(ctx, a) <==> e in Entries(ctx, b)
  {
    hide Run, FirstPictures;
    forall x ensures x in a <==> x in b { assert x in multiset(a) <==> x in multiset(b); }
    assert SameAnchors(a, b);
    SameEntries(ctx, a, b);
    MalformedIffNotClean(Entries(ctx, a));
    SameEntriesSameClean(Entries(ctx, a), Entries(ctx, b));
    CounterIsFirstPictures(Entries(ctx, b));
  }

  /** The counter of a clean page is the same for every order of its links exactly when no group is shown
      both as a picture and as a text; then it is the number of groups that a picture shows. */
  lemma ImageOnlyIsOrderIndependentIff(ctx: Context, a: seq<Anchor>)
    requires ParseGroups(ctx, a).malformed == 0
    ensures SameCounter(ctx, a) <==> Separate(Entries(ctx, a))
    ensures Separate(Entries(ctx, a)) ==> ParseGroups(ctx, a).imageOnly == |Pictured(Entries(ctx, a))|
  {
    hide ParseGroups, FirstPictures, Entries;
    var all := Entries(ctx, a);
    CleanCounter(ctx, a, a);
    FirstPicturesPictured(all);
    if Separate(all) {
      forall b | multiset(b) == multiset(a) ensures ParseGroups(ctx, b).imageOnly == ParseGroups(ctx, a).imageOnly {
        CleanCounter(ctx, a, b);
        FirstPicturesPictured(Entries(ctx, b));
        assert Separate(Entries(ctx, b)) && Pictured(Entries(ctx, b)) == Pictured(all);
      }
    } else {
      OrdersDiffer(ctx, a);
    }
  }

  lemma OrdersDiffer(ctx: Context, a: seq<Anchor>)
    requires ParseGroups(ctx, a).malformed == 0 && !Separate(Entries(ctx, a))
    ensures !SameCounter(ctx, a)
  {
    hide ParseGroups, FirstPictures, Entries, Chosen;
    var p, t := Chosen(ctx, a, true), Chosen(ctx, a, false);
    var all, texts := Entries(ctx, a), Entries(ctx, t);
    ChosenSplit(ctx, a);
    assert multiset(p + t) == multiset(a) && multiset(t + p) == multiset(p + t);
    CleanCounter(ctx, a, p + t);
    CleanCounter(ctx, a, t + p);
    TwoOrders(ctx, a);
    var x, y :| x in all && y in all && x.role.Picture? && y.role.Named? && (x.cid, x.uid) == (y.cid, y.uid);
    ChosenEntry(ctx, a, false, y);
    assert (x.cid, x.uid) in Pictured(all) && (x.cid, x.uid) in Uids(texts);
    Smaller(Pictured(all), Uids(texts), (x.cid, x.uid));
  }

  lemma Smaller(a: set<UidKey>, b: set<UidKey>, k: UidKey)
    requires k in a && k in b
    ensures |a - b| < |a|
  {
    assert a == (a - b) + (a * b) && k in a * b;
  }
}
