/**
`parse_groups` as it runs: one loop over the links with a list, two dictionaries, three sets and
three counters, and an inner search for the picture to upgrade.
*/
module GroupReader {
  import opened Wrappers
  import opened Links
  import opened GroupParse

  class Reader {
    const ctx: Context
    var groups: seq<Group>
    var malformed: nat
    var skipped: nat
    var imageOnly: nat
    var seen: map<NameKey, string>
    var seenUids: set<UidKey>
    var candidates: set<Identity>
    var valid: set<Identity>
    var specs: map<Identity, (string, string)>

    constructor (ctx: Context)
      ensures this.ctx == ctx && At(START)
    {
      this.ctx := ctx;
      groups, malformed, skipped, imageOnly := [], 0, 0, 0;
      seen, seenUids, candidates, valid, specs := map[], {}, {}, {}, map[];
    }

    /** The variables hold the state `st`; one counter serves both kinds of conflict. */
    ghost predicate At(st: State)
      reads this
    {
      && groups == st.found.groups && seen == st.found.seen && seenUids == st.found.seenUids
      && skipped == st.found.skipped && imageOnly == st.found.imageOnly
      && candidates == st.candidates && valid == st.valid && specs == st.specs
      && malformed == st.conflicts + st.found.clashes
    }

    /** Puts the text into the first picture with this cid and uid, if there is one. */
    method Upgrade(cid: string, uid: string, code: string, name: string) returns (upgraded: bool)
      modifies this`groups
      ensures var i := FirstPicture(old(groups), cid, uid);
        && upgraded == (i < |old(groups)|)
        && groups == if upgraded then old(groups)[i := old(groups)[i].(code := code, name := name)] else old(groups)
    {
      var i := 0;
      while i < |groups|
        invariant 0 <= i <= |groups| && groups == old(groups)
        invariant FirstPicture(groups, cid, uid) == i + FirstPicture(groups[i..], cid, uid)
      {
        var g := groups[i];
        assert groups[i..][0] == g && groups[i..][1..] == groups[i + 1..];
        if g.cid == cid && g.uid == uid && g.code == "" {
          groups := groups[i := g.(code := code, name := name)];
          return true;
        }
        i := i + 1;
      }
      return false;
    }

    method ReadPicture(link: Link, cid: string, uid: string, candidate: Identity, ghost st: State)
      requires At(st)
      modifies this
      ensures At(Step(st, Entry(Picture, candidate, cid, uid, link)).(candidates := st.candidates))
    {
      valid := valid + {candidate};
      if (cid, uid) in seenUids { return; }
      seenUids := seenUids + {(cid, uid)};
      imageOnly := imageOnly + 1;
      groups := groups + [Group("", "", cid, uid, link)];
    }

    method ReadText(link: Link, cid: string, uid: string, candidate: Identity, code: string, name: string,
                    ghost st: State)
      requires At(st)
      modifies this
      ensures At(Step(st, Entry(Named(code, name), candidate, cid, uid, link)).(candidates := st.candidates))
    {
      if candidate in specs && specs[candidate] != (code, name) {
        malformed := malformed + 1;
        return;
      }
      specs := specs[candidate := (code, name)];
      valid := valid + {candidate};
      var identity := (cid, code, uid);
      if identity in seen {
        if seen[identity] != name { malformed := malformed + 1; }
        return;
      }
      seen := seen[identity := name];
      if (cid, uid) in seenUids {
        var upgraded := Upgrade(cid, uid, code, name);
        if upgraded { return; }
      }
      seenUids := seenUids + {(cid, uid)};
      groups := groups + [Group(code, name, cid, uid, link)];
    }

    method ReadLink(a: Anchor, ghost st: State)
      requires At(st)
      modifies this
      ensures At(if Classify(ctx, a).Some? then Step(st, Classify(ctx, a).value) else st)
    {
      hide GroupText, CandidateIdentity, ContextMismatch;
      if !a.link.endpoint.Unit? { return; }
      if ContextMismatch(a.link, "c", Some(ctx.brand), true) || ContextMismatch(a.link, "vid", ctx.expectedVid, false) {
        skipped := skipped + 1;
        return;
      }
      var cid := Qs(a.link, "cid");
      var key := if cid.Some? then cid.value else ctx.defaultCid;
      var uid := Qs(a.link, "uid");
      var candidate := CandidateIdentity(a.link, IDENTITY_KEYS, ["uid"]);
      candidates := candidates + {candidate};
      if ctx.expectedCid.Some? && key != ctx.expectedCid.value { return; }
      if uid.None? { return; }
      ghost var listed := st.(candidates := st.candidates + {candidate});
      if a.text == "" {
        ReadPicture(a.link, key, uid.value, candidate, listed);
        return;
      }
      var spec := GroupText(a.text);
      if spec.None? { return; }
      ReadText(a.link, key, uid.value, candidate, spec.value.0, spec.value.1, listed);
    }
  }

  lemma EntriesNext(ctx: Context, anchors: seq<Anchor>, i: nat)
    requires i < |anchors|
    ensures var entry := Classify(ctx, anchors[i]);
      Run(Entries(ctx, anchors[..i + 1]))
        == if entry.Some? then Step(Run(Entries(ctx, anchors[..i])), entry.value) else Run(Entries(ctx, anchors[..i]))
  {
    hide Classify, Step;
    assert anchors[..i + 1][..i] == anchors[..i];
    var before, entry := Entries(ctx, anchors[..i]), Classify(ctx, anchors[i]);
    if entry.Some? { assert (before + [entry.value])[..|before|] == before; } else { assert before + [] == before; }
  }

  method ReadGroups(ctx: Context, anchors: seq<Anchor>) returns (r: Parsed)
    ensures r == ParseGroups(ctx, anchors)
  {
    hide Classify, Step;
    var reader := new Reader(ctx);
    for i := 0 to |anchors|
      invariant fresh(reader) && reader.ctx == ctx && reader.At(Run(Entries(ctx, anchors[..i])))
    {
      EntriesNext(ctx, anchors, i);
      reader.ReadLink(anchors[i], Run(Entries(ctx, anchors[..i])));
    }
    assert anchors[..|anchors|] == anchors;
    return Parsed(reader.groups, reader.malformed + |reader.candidates - reader.valid|, reader.skipped,
                  reader.imageOnly);
  }
}
