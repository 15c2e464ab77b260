/**
The closure check between the groups the database knows for one category and the groups a page
shows: what is missing, and what is shown as a picture only.
*/
module GroupClosure {
  import opened GroupTable

  datatype ParsedGroup = ParsedGroup(cid: string, uid: string, code: string, name: string, url: string)

  /** Known or parsed codes of each uid; the empty code stands for a picture. */
  type Codes = map<string, set<string>>

  predicate InCategory(g: ParsedGroup, cid: string) { (g.cid == "" || g.cid == cid) && g.uid != "" }

  predicate Shows(groups: seq<ParsedGroup>, cid: string, uid: string, code: string) {
    exists g :: g in groups && InCategory(g, cid) && g.uid == uid && g.code == code
  }

  predicate ShowsUid(groups: seq<ParsedGroup>, cid: string, uid: string) {
    exists g :: g in groups && InCategory(g, cid) && g.uid == uid
  }

  predicate Knows(known: Codes, uid: string, code: string) { uid in known && code in known[uid] }

  // ---------------------------------------------------------------- mismatches, on the page

  /** The group stands for `uid` in the category, whose number it may leave out. */
  predicate Stands(g: ParsedGroup, cid: string, uid: string) {
    uid != "" && g.uid == uid && (g.cid == cid || g.cid == "")
  }

  predicate NoneStands(groups: seq<ParsedGroup>, cid: string, uid: string) {
    forall g :: g in groups ==> !Stands(g, cid, uid)
  }

  predicate NoneCoded(groups: seq<ParsedGroup>, cid: string, uid: string, code: string) {
    forall g :: g in groups && Stands(g, cid, uid) ==> g.code != code
  }

  lemma ShowsIff(groups: seq<ParsedGroup>, cid: string, uid: string, code: string)
    ensures ShowsUid(groups, cid, uid) <==> !NoneStands(groups, cid, uid)
    ensures Shows(groups, cid, uid, code) <==> !NoneCoded(groups, cid, uid, code)
  {
  }

  // ---------------------------------------------------------------- the check as it runs

  lemma ShowsNext(groups: seq<ParsedGroup>, i: nat, cid: string, uid: string, code: string)
    requires i < |groups|
    ensures Shows(groups[..i + 1], cid, uid, code)
       <==> Shows(groups[..i], cid, uid, code) ||
            (InCategory(groups[i], cid) && groups[i].uid == uid && groups[i].code == code)
    ensures ShowsUid(groups[..i + 1], cid, uid)
       <==> ShowsUid(groups[..i], cid, uid) || (InCategory(groups[i], cid) && groups[i].uid == uid)
  {
    assert forall x :: x in groups[..i + 1] <==> x in groups[..i] || x == groups[i];
  }

  method CollectParsed(groups: seq<ParsedGroup>, cid: string) returns (parsed: Codes)
    ensures forall uid :: uid in parsed <==> ShowsUid(groups, cid, uid)
    ensures forall uid, code :: Knows(parsed, uid, code) <==> Shows(groups, cid, uid, code)
  {
    hide Shows, ShowsUid;
    parsed := map[];
    ShowsNothing(cid);
    for i := 0 to |groups|
      invariant forall uid :: uid in parsed <==> ShowsUid(groups[..i], cid, uid)
      invariant forall uid, code :: Knows(parsed, uid, code) <==> Shows(groups[..i], cid, uid, code)
    {
      var g := groups[i];
      ghost var before := parsed;
      if InCategory(g, cid) {
        var codes := if g.uid in parsed then parsed[g.uid] else {};
        parsed := parsed[g.uid := codes + {g.code}];
      }
      forall uid ensures uid in parsed <==> ShowsUid(groups[..i + 1], cid, uid) {
        ShowsNext(groups, i, cid, uid, "");
        assert uid in before <==> ShowsUid(groups[..i], cid, uid);
      }
      forall uid, code ensures Knows(parsed, uid, code) <==> Shows(groups[..i + 1], cid, uid, code) {
        ShowsNext(groups, i, cid, uid, code);
        assert Knows(before, uid, code) <==> Shows(groups[..i], cid, uid, code);
      }
    }
    assert groups[..|groups|] == groups;
  }

  lemma ShowsNothing(cid: string)
    ensures forall uid, code :: !Shows([], cid, uid, code)
    ensures forall uid :: !ShowsUid([], cid, uid)
  {
  }

  /** The codes of one uid that is shown: satisfied, shown as a picture only, or missing. */
  method CompareCodes(known: set<string>, parsed: set<string>) returns (missing: set<string>, downgraded: set<string>)
    ensures forall code :: code in missing <==> code in known && code !in parsed && code != "" && "" !in parsed
    ensures forall code :: code in downgraded <==> code in known && code !in parsed && code != "" && "" in parsed
  {
    missing, downgraded := {}, {};
    var remaining := known;
    while remaining != {}
      invariant remaining <= known
      invariant forall c :: c in missing <==> c in known && c !in remaining && c !in parsed && c != "" && "" !in parsed
      invariant forall c ::
        c in downgraded <==> c in known && c !in remaining && c !in parsed && c != "" && "" in parsed
      decreases |remaining|
    {
      var code :| code in remaining;
      remaining := remaining - {code};
      if code in parsed { continue; }
      if code == "" { continue; }
      if "" in parsed {
        downgraded := downgraded + {code};
        continue;
      }
      missing := missing + {code};
    }
  }

  method ClosureMismatches(known: Codes, groups: seq<ParsedGroup>, cid: string)
      returns (missingUids: set<string>, missingCodes: set<(string, string)>, downgraded: set<(string, string)>)
    ensures forall uid :: uid in missingUids <==> uid in known && !ShowsUid(groups, cid, uid)
    ensures forall uid, code :: (code, uid) in missingCodes <==> Missing(known, groups, cid, uid, code)
    ensures forall uid, code :: (code, uid) in downgraded <==> Downgraded(known, groups, cid, uid, code)
    ensures forall uid :: uid in missingUids <==> uid in known && NoneStands(groups, cid, uid)
    ensures forall uid, code :: (code, uid) in missingCodes <==>
      && uid in known && code in known[uid] && code != "" && !NoneStands(groups, cid, uid)
      && NoneCoded(groups, cid, uid, code) && NoneCoded(groups, cid, uid, "")
    ensures forall uid, code :: (code, uid) in downgraded <==>
      && uid in known && code in known[uid] && code != "" && !NoneStands(groups, cid, uid)
      && NoneCoded(groups, cid, uid, code) && !NoneCoded(groups, cid, uid, "")
  {
    hide Shows, ShowsUid, NoneStands, NoneCoded;
    forall uid, code
      ensures ShowsUid(groups, cid, uid) <==> !NoneStands(groups, cid, uid)
      ensures Shows(groups, cid, uid, code) <==> !NoneCoded(groups, cid, uid, code)
    {
      ShowsIff(groups, cid, uid, code);
    }
    forall uid ensures ShowsUid(groups, cid, uid) <==> !NoneStands(groups, cid, uid) { ShowsIff(groups, cid, uid, ""); }
    var parsed := CollectParsed(groups, cid);
    missingUids := known.Keys - parsed.Keys;
    missingCodes, downgraded := {}, {};
    var remaining := known.Keys;
    while remaining != {}
      invariant remaining <= known.Keys
      invariant forall uid, code ::
        (code, uid) in missingCodes <==> uid !in remaining && Missing(known, groups, cid, uid, code)
      invariant forall uid, code ::
        (code, uid) in downgraded <==> uid !in remaining && Downgraded(known, groups, cid, uid, code)
      decreases |remaining|
    {
      var uid :| uid in remaining;
      remaining := remaining - {uid};
      if uid !in parsed { continue; }
      var gone, shrunk := CompareCodes(known[uid], parsed[uid]);
      assert forall code :: code in parsed[uid] <==> Shows(groups, cid, uid, code) by {
        assert forall code :: Knows(parsed, uid, code) <==> code in parsed[uid];
      }
      missingCodes := missingCodes + set code | code in gone :: (code, uid);
      downgraded := downgraded + set code | code in shrunk :: (code, uid);
    }
  }

  /** A known text code whose uid is shown, but neither with this code nor as a picture. */
  predicate Missing(known: Codes, groups: seq<ParsedGroup>, cid: string, uid: string, code: string) {
    && Knows(known, uid, code) && code != "" && ShowsUid(groups, cid, uid)
    && !Shows(groups, cid, uid, code) && !Shows(groups, cid, uid, "")
  }

  predicate Downgraded(known: Codes, groups: seq<ParsedGroup>, cid: string, uid: string, code: string) {
    && Knows(known, uid, code) && code != "" && ShowsUid(groups, cid, uid)
    && !Shows(groups, cid, uid, code) && Shows(groups, cid, uid, "")
  }

  // ---------------------------------------------------------------- exact

  /** How a known group can be accounted for by a page. */
  predicate Accounted(groups: seq<ParsedGroup>, cid: string, uid: string, code: string) {
    Shows(groups, cid, uid, code) || (code == "" && ShowsUid(groups, cid, uid)) || Shows(groups, cid, uid, "")
  }

  ghost predicate Closed(known: Codes, groups: seq<ParsedGroup>, cid: string) {
    && (forall uid :: uid in known ==> ShowsUid(groups, cid, uid))
    && (forall uid, code :: !Missing(known, groups, cid, uid, code))
  }

  /** Nothing is reported missing exactly when every known group is shown, is a picture whose uid is
      shown, or is shown as a picture. */
  lemma ClosureIsExact(known: Codes, groups: seq<ParsedGroup>, cid: string)
    requires forall uid :: uid in known ==> known[uid] != {}
    ensures Closed(known, groups, cid)
         <==> forall uid, code :: Knows(known, uid, code) ==> Accounted(groups, cid, uid, code)
  {
    hide Shows, ShowsUid;
    if forall uid, code :: Knows(known, uid, code) ==> Accounted(groups, cid, uid, code) {
      forall uid | uid in known ensures ShowsUid(groups, cid, uid) {
        var code :| code in known[uid];
        assert Knows(known, uid, code);
        ShownUid(groups, cid, uid, code);
        ShownUid(groups, cid, uid, "");
      }
      forall uid, code ensures !Missing(known, groups, cid, uid, code) {
        assert Knows(known, uid, code) ==> Accounted(groups, cid, uid, code);
      }
    }
    if Closed(known, groups, cid) {
      forall uid, code | Knows(known, uid, code) ensures Accounted(groups, cid, uid, code) {
        assert !Missing(known, groups, cid, uid, code);
      }
    }
  }

  // ---------------------------------------------------------------- stable

  /** What the database knows of a category: the codes of every uid in its table. */
  ghost predicate KnownOf(t: Table, known: Codes) {
    && (forall uid :: uid in known <==> uid != "" && exists code :: (code, uid) in t.rows)
    && (forall uid, code :: uid in known ==> (code in known[uid] <==> (code, uid) in t.rows))
  }

  function CallsOf(groups: seq<ParsedGroup>, cid: string): seq<Call> {
    if groups == [] then [] else
      var n := |groups| - 1;
      var g := groups[n];
      CallsOf(groups[..n], cid) + if g.cid == "" || g.cid == cid then [Call(g.code, g.name, g.uid, g.url)] else []
  }

  /** The groups of the category are stored, each as it is shown. */
  lemma {:induction false} CallsFromGroups(groups: seq<ParsedGroup>, cid: string, c: Call)
    ensures c in CallsOf(groups, cid) <==> exists g ::
      g in groups && (g.cid == cid || g.cid == "") && c == Call(g.code, g.name, g.uid, g.url)
    ensures c in CallsOf(groups, cid) && c.uid != "" ==> Shows(groups, cid, c.uid, c.code)
  {
    if groups != [] {
      var n := |groups| - 1;
      assert groups == groups[..n] + [groups[n]];
      CallsFromGroups(groups[..n], cid, c);
      assert forall g :: g in groups <==> g in groups[..n] || g == groups[n];
    }
  }

  /** Upserting invents no key: a key in the table was there before or was asked for. */
  lemma {:induction false} UpsertedKeys(t: Table, calls: seq<Call>, k: Key)
    requires k in UpsertAll(t, calls).0.rows
    ensures k in t.rows || exists c :: c in calls && k == (c.code, c.uid)
  {
    if calls != [] {
      var n := |calls| - 1;
      assert calls == calls[..n] + [calls[n]];
      if k in UpsertAll(t, calls[..n]).0.rows {
        UpsertedKeys(t, calls[..n], k);
        assert forall c :: c in calls[..n] ==> c in calls;
      } else {
        assert k == (calls[n].code, calls[n].uid) && calls[n] in calls;
      }
    }
  }

  /** A page that passes against what is known still passes after all its groups were stored. */
  lemma ClosureIsStable(t: Table, before: Codes, groups: seq<ParsedGroup>, cid: string, after: Codes)
    requires KnownOf(t, before) && KnownOf(UpsertAll(t, CallsOf(groups, cid)).0, after)
    requires Closed(before, groups, cid)
    ensures Closed(after, groups, cid)
  {
    hide Shows, ShowsUid;
    var calls := CallsOf(groups, cid);
    forall uid, code | Knows(after, uid, code)
      ensures Shows(groups, cid, uid, code) || Knows(before, uid, code)
    {
      UpsertedKeys(t, calls, (code, uid));
      if (code, uid) !in t.rows {
        var c :| c in calls && (code, uid) == (c.code, c.uid);
        CallsFromGroups(groups, cid, c);
      }
    }
    forall uid | uid in after ensures ShowsUid(groups, cid, uid) {
      var code :| (code, uid) in UpsertAll(t, calls).0.rows;
      assert Knows(after, uid, code);
      ShownUid(groups, cid, uid, code);
    }
    forall uid, code ensures !Missing(after, groups, cid, uid, code) {
      assert !Missing(before, groups, cid, uid, code);
    }
  }

  lemma ShownUid(groups: seq<ParsedGroup>, cid: string, uid: string, code: string)
    ensures Shows(groups, cid, uid, code) ==> ShowsUid(groups, cid, uid)
  {
  }
}
