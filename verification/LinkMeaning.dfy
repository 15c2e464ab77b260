/**
What links say, written on their query pairs: whose page they lead to, and which of them lead to the
same target.
*/
module LinkMeaning {
  import opened Wrappers
  import opened Links

  ghost predicate Silent(link: Link, key: string) { NothingBefore(link.query, key, |link.query|) }

  ghost predicate Says(link: Link, key: string, value: string) { Asks(link.query, key, value) }

  /** A link may leave the brand out, but may not name another one. */
  ghost predicate OfBrand(link: Link, brand: string) { Silent(link, "c") || Says(link, "c", brand) }

  /** A link must name the vehicle, if it is known. */
  ghost predicate OfVehicle(link: Link, vid: Option<string>) { vid.None? || Says(link, "vid", vid.value) }

  lemma SaysIff(link: Link, key: string, value: string)
    ensures Says(link, key, value) <==> Qs(link, key) == Some(value)
    ensures Silent(link, key) <==> Qs(link, key) == None
  {
    FirstIff(link.query, key, value);
  }

  lemma OfBrandIff(link: Link, brand: string)
    ensures OfBrand(link, brand) <==> !ContextMismatch(link, "c", Some(brand), true)
  {
    SaysIff(link, "c", brand);
  }

  lemma OfVehicleIff(link: Link, vid: Option<string>)
    ensures OfVehicle(link, vid) <==> !ContextMismatch(link, "vid", vid, false)
  {
    if vid.Some? { SaysIff(link, "vid", vid.value); }
  }

  // ---------------------------------------------------------------- targets

  ghost predicate SameAnswer(a: Link, b: Link, key: string) { forall v :: Says(a, key, v) <==> Says(b, key, v) }

  /** The request values do not tell where the link leads. */
  ghost predicate Vague(link: Link, keys: seq<string>, needed: seq<string>) {
    (forall key :: key in keys ==> Silent(link, key)) || exists key :: key in needed && Silent(link, key)
  }

  /** Two links lead to one target when they agree in every key, or, when that tells too little, in everything. */
  ghost predicate SameTarget(a: Link, b: Link, keys: seq<string>, needed: seq<string>) {
    (forall key :: key in keys ==> SameAnswer(a, b, key)) && (Vague(a, keys, needed) ==> a == b)
  }

  lemma SameAnswerIff(a: Link, b: Link, key: string)
    ensures SameAnswer(a, b, key) <==> Qs(a, key) == Qs(b, key)
  {
    hide Asks, Silent, Qs;
    forall v
      ensures Says(a, key, v) <==> Qs(a, key) == Some(v)
      ensures Says(b, key, v) <==> Qs(b, key) == Some(v)
    {
      SaysIff(a, key, v);
      SaysIff(b, key, v);
    }
    if SameAnswer(a, b, key) && Qs(a, key).Some? { assert Says(a, key, Qs(a, key).value); }
    if SameAnswer(a, b, key) && Qs(b, key).Some? { assert Says(b, key, Qs(b, key).value); }
  }

  lemma VagueIff(link: Link, keys: seq<string>, needed: seq<string>)
    ensures Vague(link, keys, needed) <==> CandidateIdentity(link, keys, needed).ByLink?
  {
    hide Silent, Qs;
    var values := Values(link, keys);
    forall key ensures Silent(link, key) <==> Qs(link, key).None? { SaysIff(link, key, ""); }
    if forall key :: key in keys ==> Silent(link, key) {
      forall v | v in values ensures v.None? {
        var i :| 0 <= i < |values| && values[i] == v;
        assert keys[i] in keys;
      }
    }
    if forall v :: v in values ==> v.None? {
      forall key | key in keys ensures Silent(link, key) {
        var i :| 0 <= i < |keys| && keys[i] == key;
        assert values[i] in values;
      }
    }
  }

  lemma ValuesIff(a: Link, b: Link, keys: seq<string>)
    ensures Values(a, keys) == Values(b, keys) <==> forall key :: key in keys ==> SameAnswer(a, b, key)
  {
    hide Qs, SameAnswer;
    forall key ensures SameAnswer(a, b, key) <==> Qs(a, key) == Qs(b, key) { SameAnswerIff(a, b, key); }
    if Values(a, keys) == Values(b, keys) {
      forall key | key in keys ensures SameAnswer(a, b, key) {
        var i :| 0 <= i < |keys| && keys[i] == key;
        assert Values(a, keys)[i] == Values(b, keys)[i];
      }
    } else {
      assert !(forall i :: 0 <= i < |keys| ==> Values(a, keys)[i] == Values(b, keys)[i]);
      var i :| 0 <= i < |keys| && Values(a, keys)[i] != Values(b, keys)[i];
      assert keys[i] in keys && !SameAnswer(a, b, keys[i]);
    }
  }

  /** Two links have one candidate identity exactly when they lead to one target. */
  lemma SameTargetIff(a: Link, b: Link, keys: seq<string>, needed: seq<string>)
    requires forall key :: key in needed ==> key in keys
    ensures SameTarget(a, b, keys, needed) <==> CandidateIdentity(a, keys, needed) == CandidateIdentity(b, keys, needed)
  {
    hide Vague, SameAnswer, Values, Qs;
    ValuesIff(a, b, keys);
    VagueIff(a, keys, needed);
    VagueIff(b, keys, needed);
    IdentityParts(a, keys, needed);
    IdentityParts(b, keys, needed);
    hide CandidateIdentity;
    if forall key :: key in keys ==> SameAnswer(a, b, key) { SameVague(a, b, keys, needed); }
  }

  lemma SameVague(a: Link, b: Link, keys: seq<string>, needed: seq<string>)
    requires (forall key :: key in needed ==> key in keys) && forall key :: key in keys ==> SameAnswer(a, b, key)
    ensures Vague(a, keys, needed) <==> Vague(b, keys, needed)
  {
    hide SameAnswer, Silent;
    forall key | key in keys ensures Silent(a, key) <==> Silent(b, key) { SameSilence(a, b, key); }
  }

  lemma SameSilence(a: Link, b: Link, key: string)
    requires SameAnswer(a, b, key)
    ensures Silent(a, key) <==> Silent(b, key)
  {
    hide SameAnswer, Silent, Says, Qs;
    SameAnswerIff(a, b, key);
    SaysIff(a, key, "");
    SaysIff(b, key, "");
  }

  lemma IdentityParts(a: Link, keys: seq<string>, needed: seq<string>)
    ensures CandidateIdentity(a, keys, needed).values == Values(a, keys)
    ensures CandidateIdentity(a, keys, needed).ByLink? ==> CandidateIdentity(a, keys, needed).link == a
  {
  }

  // ---------------------------------------------------------------- counting targets

  /** The links lead to `n` targets: `n` of them lead to different ones, and every link to one of these. */
  ghost predicate CountsTargets(n: nat, links: set<Link>, keys: seq<string>, needed: seq<string>) {
    exists chosen: seq<Link> :: |chosen| == n && Represents(chosen, links, keys, needed)
  }

  ghost predicate Represents(chosen: seq<Link>, links: set<Link>, keys: seq<string>, needed: seq<string>) {
    && (forall i :: 0 <= i < |chosen| ==> chosen[i] in links)
    && (forall i, j :: 0 <= i < j < |chosen| ==> !SameTarget(chosen[i], chosen[j], keys, needed))
    && (forall link :: link in links ==> exists i :: 0 <= i < |chosen| && SameTarget(link, chosen[i], keys, needed))
  }

  function Identities(links: set<Link>, keys: seq<string>, needed: seq<string>): set<Identity> {
    set link | link in links :: CandidateIdentity(link, keys, needed)
  }

  /** One link of each identity. */
  ghost predicate Covers(chosen: seq<Link>, links: set<Link>, keys: seq<string>, needed: seq<string>) {
    && (forall i :: 0 <= i < |chosen| ==> chosen[i] in links)
    && (forall i, j :: 0 <= i < j < |chosen| ==>
          CandidateIdentity(chosen[i], keys, needed) != CandidateIdentity(chosen[j], keys, needed))
    && (forall link :: link in links ==> HasIdentity(chosen, CandidateIdentity(link, keys, needed), keys, needed))
  }

  ghost predicate HasIdentity(chosen: seq<Link>, id: Identity, keys: seq<string>, needed: seq<string>) {
    exists i :: 0 <= i < |chosen| && CandidateIdentity(chosen[i], keys, needed) == id
  }

  lemma {:induction false} Choose(links: set<Link>, keys: seq<string>, needed: seq<string>) returns (chosen: seq<Link>)
    ensures Covers(chosen, links, keys, needed) && |chosen| == |Identities(links, keys, needed)|
    decreases links
  {
    hide CandidateIdentity;
    if links == {} {
      chosen := [];
      assert Identities(links, keys, needed) == {};
    } else {
      var link :| link in links;
      var id := CandidateIdentity(link, keys, needed);
      var rest := links - {link};
      chosen := Choose(rest, keys, needed);
      assert links == rest + {link};
      OneIdentityMore(rest, link, keys, needed);
      if id !in Identities(rest, keys, needed) { chosen := CoverMore(chosen, rest, link, keys, needed); }
    }
  }

  lemma OneIdentityMore(links: set<Link>, link: Link, keys: seq<string>, needed: seq<string>)
    ensures Identities(links + {link}, keys, needed)
         == Identities(links, keys, needed) + {CandidateIdentity(link, keys, needed)}
  {
    hide CandidateIdentity;
  }

  lemma CoverMore(chosen: seq<Link>, links: set<Link>, link: Link, keys: seq<string>, needed: seq<string>)
      returns (next: seq<Link>)
    requires Covers(chosen, links, keys, needed)
    requires CandidateIdentity(link, keys, needed) !in Identities(links, keys, needed)
    ensures Covers(next, links + {link}, keys, needed) && |next| == |chosen| + 1
  {
    hide CandidateIdentity;
    next := chosen + [link];
    forall l | l in links + {link} ensures HasIdentity(next, CandidateIdentity(l, keys, needed), keys, needed) {
      if l in links {
        var i :| 0 <= i < |chosen| && CandidateIdentity(chosen[i], keys, needed) == CandidateIdentity(l, keys, needed);
        assert next[i] == chosen[i];
      } else {
        assert next[|chosen|] == link;
      }
    }
  }

  /** The number of identities is the number of targets. */
  lemma TargetsAreCounted(links: set<Link>, keys: seq<string>, needed: seq<string>)
    requires forall key :: key in needed ==> key in keys
    ensures CountsTargets(|Identities(links, keys, needed)|, links, keys, needed)
  {
    hide CandidateIdentity, SameTarget, Identities;
    var chosen := Choose(links, keys, needed);
    forall i, j | 0 <= i < j < |chosen| ensures !SameTarget(chosen[i], chosen[j], keys, needed) {
      SameTargetIff(chosen[i], chosen[j], keys, needed);
    }
    forall link | link in links ensures exists i :: 0 <= i < |chosen| && SameTarget(link, chosen[i], keys, needed) {
      assert HasIdentity(chosen, CandidateIdentity(link, keys, needed), keys, needed);
      var i :| 0 <= i < |chosen| && CandidateIdentity(chosen[i], keys, needed) == CandidateIdentity(link, keys, needed);
      SameTargetIff(link, chosen[i], keys, needed);
    }
    assert Represents(chosen, links, keys, needed);
  }

  /** Positions in ascending order. */
  ghost predicate Increasing(places: seq<int>) { forall m, n :: 0 <= m < n < |places| ==> places[m] < places[n] }
}
