/**
What a sanitised document shows: which query pairs it keeps, which values it replaces, and how the
sentinels are numbered.
*/
module SanitizerMeaning {
  import opened Canonical
  import opened Links
  import opened LinkMeaning
  import opened Sanitizer

  // ---------------------------------------------------------------- keys, whatever their case

  /** `s` is the lower-case word, with capitals or without. */
  predicate Reads(s: string, word: string) {
    |s| == |word| && forall i :: 0 <= i < |s| ==>
      s[i] == word[i] || ('A' <= s[i] <= 'Z' && s[i] as int + 32 == word[i] as int)
  }

  predicate LowerCase(word: string) { forall c :: c in word ==> 'a' <= c <= 'z' }

  lemma LowerIff(s: string, word: string)
    requires LowerCase(word)
    ensures Lower(s) == word <==> Reads(s, word)
  {
    if Reads(s, word) {
      forall i | 0 <= i < |s| ensures Lower(s)[i] == word[i] {
        assert word[i] in word && Lower(s)[i] == LowerChar(s[i]);
        if 'A' <= s[i] <= 'Z' { assert LowerChar(s[i]) as int == s[i] as int + 32; }
      }
      assert Lower(s) == word;
    }
    if Lower(s) == word {
      forall i | 0 <= i < |s|
        ensures s[i] == word[i] || ('A' <= s[i] <= 'Z' && s[i] as int + 32 == word[i] as int)
      {
        assert Lower(s)[i] == LowerChar(s[i]);
      }
    }
  }

  predicate TokenKey(key: string) { Reads(key, "ssd") }

  predicate KeptKey(key: string) {
    || TokenKey(key) || Reads(key, "c") || Reads(key, "model") || Reads(key, "vid") || Reads(key, "cid")
    || Reads(key, "cname") || Reads(key, "uid") || Reads(key, "q")
  }

  /** Which keys are kept, and which of them carry a token. */
  lemma KeysIff(key: string)
    ensures IsToken(key) <==> TokenKey(key)
    ensures IsKept(key) <==> KeptKey(key)
  {
    hide Lower, Reads;
    LowerIff(key, "ssd");
    LowerIff(key, "c");
    LowerIff(key, "model");
    LowerIff(key, "vid");
    LowerIff(key, "cid");
    LowerIff(key, "cname");
    LowerIff(key, "uid");
    LowerIff(key, "q");
  }

  // ---------------------------------------------------------------- one query

  predicate Secret(p: Pair) { TokenKey(p.key) && p.value != "" }

  /** The pair as it is stored. */
  predicate StoredAs(p: Pair, q: Pair, names: Aliases) {
    q.key == p.key && if Secret(p) then p.value in names && q.value == names[p.value] else q.value == p.value
  }

  /** The stored query holds the kept pairs in their order, each as it is stored, and nothing else. */
  ghost predicate KeepsPairs(query: seq<Pair>, stored: seq<Pair>, names: Aliases, places: seq<int>) {
    && Increasing(places) && |places| == |stored|
    && (forall i :: i in places <==> 0 <= i < |query| && KeptKey(query[i].key))
    && (forall k :: 0 <= k < |places| && 0 <= places[k] < |query| ==> StoredAs(query[places[k]], stored[k], names))
  }

  lemma {:induction false} QueryKeeps(query: seq<Pair>, names: Aliases) returns (places: seq<int>)
    requires Sanitizer.Covers(query, names)
    ensures KeepsPairs(query, RenameQuery(query, names), names, places)
  {
    hide IsToken, IsKept, TokenKey, KeptKey;
    if query == [] {
      places := [];
    } else {
      var n := |query| - 1;
      var before, p := query[..n], query[n];
      assert query == before + [p] && p in query;
      var earlier := QueryKeeps(before, names);
      RenameJoin(before, p, names);
      places := earlier + if KeptKey(p.key) then [n] else [];
      KeepsNext(before, p, RenameQuery(before, names), names, earlier);
    }
  }

  lemma {:induction false} KeepsNext(before: seq<Pair>, p: Pair, stored: seq<Pair>, names: Aliases, earlier: seq<int>)
    requires KeepsPairs(before, stored, names, earlier) && Sanitizer.Covers([p], names)
    ensures KeepsPairs(before + [p], stored + RenameQuery([p], names), names,
                       earlier + if KeptKey(p.key) then [|before|] else [])
  {
    hide IsToken, IsKept, TokenKey, KeptKey;
    KeysIff(p.key);
    assert p in [p] && RenameQuery([p][1..], names) == [];
    var n := |before|;
    var places := earlier + if KeptKey(p.key) then [n] else [];
    forall k | 0 <= k < |earlier| ensures 0 <= earlier[k] < n { assert earlier[k] in earlier; }
    assert forall i :: i in places <==> i in earlier || (i == n && KeptKey(p.key));
  }

  lemma {:induction false} RenameJoin(before: seq<Pair>, p: Pair, names: Aliases)
    ensures RenameQuery(before + [p], names) == RenameQuery(before, names) + RenameQuery([p], names)
  {
    hide IsToken, IsKept, RenameValue;
    if before == [] {
      assert before + [p] == [p] && RenameQuery(before, names) == [];
    } else {
      assert (before + [p])[1..] == before[1..] + [p];
      RenameJoin(before[1..], p, names);
    }
  }

  // ---------------------------------------------------------------- the numbers of the sentinels

  /** The tokens of a query, and of a document, in order. */
  function Tokens(query: seq<Pair>): seq<string> {
    if query == [] then [] else (if Secret(query[0]) then [query[0].value] else []) + Tokens(query[1..])
  }

  function AllTokens(links: seq<Link>): seq<string> {
    if links == [] then [] else Tokens(links[0].query) + AllTokens(links[1..])
  }

  function Values(tokens: seq<string>): set<string> { set t | t in tokens }

  /** The names are those of the tokens, each numbered by its first appearance. */
  ghost predicate NumberedInOrder(tokens: seq<string>, names: Aliases) {
    && names.Keys == Values(tokens)
    && forall k :: 0 <= k < |tokens| && tokens[k] !in tokens[..k] ==>
         names[tokens[k]] == Alias(|Values(tokens[..k])| + 1)
  }

  lemma {:induction false} ValuesNext(tokens: seq<string>, t: string)
    ensures Values(tokens + [t]) == Values(tokens) + {t} && (t in Values(tokens) <==> t in tokens)
  {
    forall v ensures v in Values(tokens + [t]) <==> v in Values(tokens) + {t} {}
  }

  lemma {:induction false} ValuesHold(tokens: seq<string>, k: nat)
    requires k < |tokens|
    ensures tokens[k] in Values(tokens)
  {
  }

  /** A name given before stays. */
  lemma {:induction false} OldNumber(tokens: seq<string>, t: string, names: Aliases, k: nat)
    requires NumberedInOrder(tokens, names) && k < |tokens| && tokens[k] !in tokens[..k]
    ensures tokens[k] in Enter(t, names) && Enter(t, names)[tokens[k]] == Alias(|Values(tokens[..k])| + 1)
  {
    ValuesHold(tokens, k);
    hide Alias, Values;
  }

  lemma {:induction false} NewNumber(tokens: seq<string>, t: string, names: Aliases)
    requires NumberedInOrder(tokens, names) && t !in tokens
    ensures t in Enter(t, names) && Enter(t, names)[t] == Alias(|Values(tokens)| + 1)
  {
    hide Alias, Values, NumberedInOrder, Enter;
    NamesAre(tokens, names);
    HasValue(tokens, t);
    assert t !in names.Keys;
    EnterNew(t, names);
  }

  lemma {:induction false} HasValue(tokens: seq<string>, t: string)
    ensures t in Values(tokens) <==> t in tokens
  {
  }

  lemma {:induction false} EnterNew(t: string, names: Aliases)
    requires t !in names
    ensures t in Enter(t, names) && Enter(t, names)[t] == Alias(|names| + 1)
  {
    hide Alias;
  }

  lemma {:induction false} NamesAre(tokens: seq<string>, names: Aliases)
    requires NumberedInOrder(tokens, names)
    ensures names.Keys == Values(tokens) && |names| == |Values(tokens)|
  {
    hide Alias, Values;
    assert |names| == |names.Keys|;
  }

  lemma {:induction false} EnterAt(tokens: seq<string>, t: string, names: Aliases, k: nat)
    requires NumberedInOrder(tokens, names) && k <= |tokens| && (tokens + [t])[k] !in (tokens + [t])[..k]
    ensures (tokens + [t])[k] in Enter(t, names)
    ensures Enter(t, names)[(tokens + [t])[k]] == Alias(|Values((tokens + [t])[..k])| + 1)
  {
    hide Alias, Values, Enter, NumberedInOrder;
    if k < |tokens| {
      assert (tokens + [t])[..k] == tokens[..k] && (tokens + [t])[k] == tokens[k];
      OldNumber(tokens, t, names, k);
    } else {
      assert (tokens + [t])[..k] == tokens;
      NewNumber(tokens, t, names);
    }
  }

  lemma {:induction false} EnterNumbers(tokens: seq<string>, t: string, names: Aliases)
    requires NumberedInOrder(tokens, names)
    ensures NumberedInOrder(tokens + [t], Enter(t, names))
  {
    ValuesNext(tokens, t);
    assert Enter(t, names).Keys == names.Keys + {t};
    hide Alias, Values, Enter;
    forall k | 0 <= k < |tokens + [t]| && (tokens + [t])[k] !in (tokens + [t])[..k]
      ensures (tokens + [t])[k] in Enter(t, names)
      ensures Enter(t, names)[(tokens + [t])[k]] == Alias(|Values((tokens + [t])[..k])| + 1)
    {
      EnterAt(tokens, t, names, k);
    }
  }

  lemma {:induction false} QueryNumbers(tokens: seq<string>, query: seq<Pair>, names: Aliases)
    requires NumberedInOrder(tokens, names)
    ensures NumberedInOrder(tokens + Tokens(query), SanitizeQuery(query, names).1)
    decreases query
  {
    hide IsToken, IsKept, TokenKey, KeptKey, NumberedInOrder, Enter;
    if query == [] {
      assert tokens + Tokens(query) == tokens;
    } else {
      var p := query[0];
      KeysIff(p.key);
      TokenIsKept(p.key);
      if Secret(p) {
        EnterNumbers(tokens, p.value, names);
        QueryNumbers(tokens + [p.value], query[1..], Enter(p.value, names));
        assert tokens + Tokens(query) == tokens + [p.value] + Tokens(query[1..]);
      } else {
        QueryNumbers(tokens, query[1..], names);
        assert Tokens(query) == Tokens(query[1..]);
      }
    }
  }

  lemma {:induction false} LinksNumber(tokens: seq<string>, links: seq<Link>, names: Aliases)
    requires NumberedInOrder(tokens, names)
    ensures NumberedInOrder(tokens + AllTokens(links), SanitizeLinks(links, names).1)
    decreases links
  {
    hide SanitizeQuery, NumberedInOrder, Tokens;
    if links == [] {
      assert tokens + AllTokens(links) == tokens;
    } else {
      var query := links[0].query;
      QueryNumbers(tokens, query, names);
      LinksNumber(tokens + Tokens(query), links[1..], SanitizeQuery(query, names).1);
      assert tokens + AllTokens(links) == tokens + Tokens(query) + AllTokens(links[1..]);
    }
  }

  // ---------------------------------------------------------------- the document

  ghost predicate IsSentinel(value: string) {
    value == "__PARTSOUQ_REDACTED__" || exists n :: n >= 2 && value == "__PARTSOUQ_REDACTED_" + (Decimal(n) + "__")
  }

  /** Every link keeps its place and address; its query keeps the pairs that parsers read, with each token
      replaced by the sentinel of its first appearance in the document. */
  lemma DocumentMeans(links: seq<Link>) returns (names: Aliases)
    ensures NumberedInOrder(AllTokens(links), names) && |SanitizeDocument(links)| == |links|
    ensures forall i :: 0 <= i < |links| ==>
      var stored := SanitizeDocument(links)[i];
      stored == links[i].(query := stored.query, rest := "")
        && exists places :: KeepsPairs(links[i].query, stored.query, names, places)
    ensures forall i, p ::
      0 <= i < |links| && p in SanitizeDocument(links)[i].query && Secret(p) ==> IsSentinel(p.value)
  {
    LinksAreRenamed(links, map[]);
    LinksNumber([], links, map[]);
    assert [] + AllTokens(links) == AllTokens(links);
    names := SanitizeLinks(links, map[]).1;
    forall i | 0 <= i < |links|
      ensures exists places :: KeepsPairs(links[i].query, SanitizeDocument(links)[i].query, names, places)
    {
      var places := QueryKeeps(links[i].query, names);
      assert SanitizeDocument(links)[i] == Rename(links[i], names);
    }
    forall i, p | 0 <= i < |links| && p in SanitizeDocument(links)[i].query && Secret(p) ensures IsSentinel(p.value) {
      var places := QueryKeeps(links[i].query, names);
      StoredIsSentinel(links[i].query, SanitizeDocument(links)[i].query, names, places, p);
    }
  }

  lemma StoredIsSentinel(query: seq<Pair>, stored: seq<Pair>, names: Aliases, places: seq<int>, p: Pair)
    requires KeepsPairs(query, stored, names, places) && Numbered(names) && p in stored && Secret(p)
    ensures IsSentinel(p.value)
  {
    var k :| 0 <= k < |stored| && stored[k] == p;
    assert places[k] in places;
    var q := query[places[k]];
    assert Secret(q) && p.value == names[q.value];
    var n :| 1 <= n <= |names| && names[q.value] == Alias(n);
  }
}
