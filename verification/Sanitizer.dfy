/**
`sanitize_parser_html`, as far as links are concerned: every catalog URL of a document keeps its
structure, but each distinct request token is replaced by a sentinel numbered in document order.
*/
module Sanitizer {
  import opened Wrappers
  import opened Canonical
  import opened Links

  // ---------------------------------------------------------------- sentinels

  const REDACTED := "__PARTSOUQ_REDACTED__"
  const REDACTED_STEM := "__PARTSOUQ_REDACTED_"

  /** The sentinel for the n-th distinct token of a document. */
  function Alias(n: nat): (alias: string)
    requires n >= 1
    ensures alias != ""
  {
    if n == 1 then REDACTED else REDACTED_STEM + (Decimal(n) + "__")
  }

  lemma {:induction false} DecimalStartsWithDigit(n: nat)
    ensures '0' <= Decimal(n)[0] <= '9'
  {
    if n >= 10 { DecimalStartsWithDigit(n / 10); }
  }

  lemma AliasInjective(m: nat, n: nat)
    requires m >= 1 && n >= 1 && Alias(m) == Alias(n)
    ensures m == n
  {
    hide Decimal;
    DecimalStartsWithDigit(m);
    DecimalStartsWithDigit(n);
    AliasTail(m);
    AliasTail(n);
    var a, b := Alias(m), Alias(n);
    if m > 1 && n > 1 {
      var x, y := Decimal(m) + "__", Decimal(n) + "__";
      assert x[..|x| - 2] == Decimal(m) && y[..|y| - 2] == Decimal(n);
      DecimalInjective(m, n);
    }
  }

  lemma AliasTail(n: nat)
    requires n >= 1
    ensures |Alias(n)| >= |REDACTED| && Alias(n)[|REDACTED_STEM|..] == if n == 1 then "_" else Decimal(n) + "__"
  {
    hide Decimal;
    assert REDACTED == REDACTED_STEM + "_";
  }

  // ---------------------------------------------------------------- one URL

  const PUBLIC_KEYS: set<string> := {"c", "model", "vid", "cid", "cname", "uid", "q"}

  function LowerChar(c: char): char {
    if 'A' <= c <= 'Z' then c - 'A' + 'a' else c
  }

  function Lower(s: string): string { Mapped(LowerChar, s) }

  predicate IsToken(key: string) { Lower(key) == "ssd" }

  predicate IsKept(key: string) { IsToken(key) || Lower(key) in PUBLIC_KEYS }

  type Aliases = map<string, string>

  function Enter(value: string, aliases: Aliases): Aliases {
    if value in aliases then aliases else aliases[value := Alias(|aliases| + 1)]
  }

  /** The kept pairs of a query, and the aliases known after it. */
  function SanitizeQuery(query: seq<Pair>, aliases: Aliases): (seq<Pair>, Aliases) {
    if query == [] then ([], aliases)
    else
      var p := query[0];
      if !IsKept(p.key) then SanitizeQuery(query[1..], aliases)
      else if IsToken(p.key) && p.value != "" then
        var entered := Enter(p.value, aliases);
        var (rest, final) := SanitizeQuery(query[1..], entered);
        ([Pair(p.key, entered[p.value])] + rest, final)
      else
        var (rest, final) := SanitizeQuery(query[1..], aliases);
        ([p] + rest, final)
  }

  /** All URL attributes of a document, in document order. */
  function SanitizeLinks(links: seq<Link>, aliases: Aliases): (seq<Link>, Aliases) {
    if links == [] then ([], aliases)
    else
      var (query, entered) := SanitizeQuery(links[0].query, aliases);
      var (rest, final) := SanitizeLinks(links[1..], entered);
      ([links[0].(query := query, rest := "")] + rest, final)
  }

  function SanitizeDocument(links: seq<Link>): seq<Link> { SanitizeLinks(links, map[]).0 }

  // ---------------------------------------------------------------- as a renaming

  function RenameValue(value: string, names: Aliases): string {
    if value in names then names[value] else value
  }

  /** The same, with all aliases of the document known beforehand. */
  function RenameQuery(query: seq<Pair>, names: Aliases): seq<Pair> {
    if query == [] then []
    else
      var p := query[0];
      var rest := RenameQuery(query[1..], names);
      if !IsKept(p.key) then rest
      else if IsToken(p.key) && p.value != "" then [Pair(p.key, RenameValue(p.value, names))] + rest
      else [p] + rest
  }

  function Rename(link: Link, names: Aliases): Link { link.(query := RenameQuery(link.query, names), rest := "") }

  /** Every value is a sentinel of this document and no two tokens share one. */
  ghost predicate Numbered(aliases: Aliases) {
    && (forall v :: v in aliases ==> exists n :: 1 <= n <= |aliases| && aliases[v] == Alias(n))
    && (forall v, w :: v in aliases && w in aliases && aliases[v] == aliases[w] ==> v == w)
  }

  ghost predicate Extends(a: Aliases, b: Aliases) { forall v :: v in a ==> v in b && b[v] == a[v] }

  /** Every token that occurs in the query has a name. */
  ghost predicate Covers(query: seq<Pair>, names: Aliases) {
    forall p :: p in query && IsToken(p.key) && p.value != "" ==> p.value in names
  }

  lemma EnterKeeps(value: string, aliases: Aliases)
    requires Numbered(aliases)
    ensures Numbered(Enter(value, aliases)) && Extends(aliases, Enter(value, aliases)) && value in Enter(value, aliases)
  {
    hide Alias;
    if value !in aliases {
      var next := Enter(value, aliases);
      assert |next| == |aliases| + 1;
      forall v | v in next ensures exists n :: 1 <= n <= |next| && next[v] == Alias(n) {
        if v != value {
          var n :| 1 <= n <= |aliases| && aliases[v] == Alias(n);
          assert n <= |next| && next[v] == Alias(n);
        }
      }
      forall v | v in aliases ensures aliases[v] != next[value] {
        var n :| 1 <= n <= |aliases| && aliases[v] == Alias(n);
        if aliases[v] == next[value] { AliasInjective(n, |aliases| + 1); }
      }
    }
  }

  lemma {:induction false} QueryIsRenamed(query: seq<Pair>, aliases: Aliases, names: Aliases)
    requires Numbered(aliases) && Extends(SanitizeQuery(query, aliases).1, names)
    ensures var (kept, final) := SanitizeQuery(query, aliases);
      && kept == RenameQuery(query, names) && Covers(query, final)
      && Numbered(final) && Extends(aliases, final)
  {
    hide Alias, Numbered, IsToken, IsKept;
    if query != [] {
      assert query == [query[0]] + query[1..];
      var p := query[0];
      if IsKept(p.key) && IsToken(p.key) && p.value != "" {
        EnterKeeps(p.value, aliases);
        QueryIsRenamed(query[1..], Enter(p.value, aliases), names);
      } else {
        TokenIsKept(p.key);
        QueryIsRenamed(query[1..], aliases, names);
      }
    }
  }

  lemma TokenIsKept(key: string)
    ensures IsToken(key) ==> IsKept(key)
  {
  }

  lemma {:induction false} LinksAreRenamed(links: seq<Link>, aliases: Aliases)
    requires Numbered(aliases)
    ensures var (kept, final) := SanitizeLinks(links, aliases);
      && |kept| == |links| && Numbered(final) && Extends(aliases, final)
      && forall i :: 0 <= i < |links| ==> kept[i] == Rename(links[i], final) && Covers(links[i].query, final)
  {
    hide Numbered, SanitizeQuery, RenameQuery, Covers;
    if links != [] {
      QueryIsRenamed(links[0].query, aliases, SanitizeQuery(links[0].query, aliases).1);
      var entered := SanitizeQuery(links[0].query, aliases).1;
      LinksAreRenamed(links[1..], entered);
      var final := SanitizeLinks(links, aliases).1;
      QueryIsRenamed(links[0].query, aliases, final);
      NamedStays(links[0].query, entered, final);
    }
  }

  lemma NamedStays(query: seq<Pair>, a: Aliases, b: Aliases)
    requires Covers(query, a) && Extends(a, b)
    ensures Covers(query, b)
  {
  }

  /** Sanitising is renaming with one table for the whole document, and the table never gives two
      tokens one name. */
  lemma SanitizingIsRenaming(links: seq<Link>) returns (names: Aliases)
    ensures Numbered(names) && |SanitizeDocument(links)| == |links|
    ensures forall i :: 0 <= i < |links| ==>
              SanitizeDocument(links)[i] == Rename(links[i], names) && Covers(links[i].query, names)
  {
    LinksAreRenamed(links, map[]);
    names := SanitizeLinks(links, map[]).1;
  }

  // ---------------------------------------------------------------- what a parser still reads

  /** The lower-case keys that parsers ask for. */
  predicate IsParserKey(key: string) { key == "ssd" || key in PUBLIC_KEYS }

  lemma LowerFixed(s: string)
    requires forall c :: c in s ==> !('A' <= c <= 'Z')
    ensures Lower(s) == s
  {
    assert forall i :: 0 <= i < |s| ==> s[i] in s;
    assert forall i :: 0 <= i < |s| ==> Lower(s)[i] == LowerChar(s[i]);
  }

  lemma ParserKeyIsKept(key: string)
    requires IsParserKey(key)
    ensures IsKept(key) && (IsToken(key) <==> key == "ssd")
  {
    LowerFixed(key);
  }

  function RenameOption(value: Option<string>, names: Aliases): Option<string> {
    if value.Some? then Some(RenameValue(value.value, names)) else None
  }

  ghost predicate NotBlank(names: Aliases) { forall v :: v in names ==> names[v] != "" }

  lemma NumberedNotBlank(names: Aliases)
    requires Numbered(names)
    ensures NotBlank(names)
  {
    forall v | v in names ensures names[v] != "" { var n :| 1 <= n <= |names| && names[v] == Alias(n); }
  }

  /** Every key a parser reads has the value it had, the token its sentinel. */
  lemma {:induction false} FirstIsRenamed(query: seq<Pair>, names: Aliases, key: string)
    requires IsParserKey(key) && NotBlank(names) && Covers(query, names)
    ensures First(RenameQuery(query, names), key)
         == if key == "ssd" then RenameOption(First(query, key), names) else First(query, key)
    ensures key == "ssd" && First(query, key).Some? ==> First(query, key).value in names
  {
    hide IsToken, IsKept, IsParserKey;
    if query != [] {
      assert query == [query[0]] + query[1..];
      var p := query[0];
      assert p in query;
      ParserKeyIsKept(key);
      FirstIsRenamed(query[1..], names, key);
      var renamed := RenameQuery(query, names);
      if IsKept(p.key) { assert renamed[1..] == RenameQuery(query[1..], names); }
    }
  }

  /** What survives into a stored source URL: the address and the public pairs, in some order. */
  function PublicPairs(query: seq<Pair>): seq<Pair> {
    if query == [] then []
    else (if query[0].key in PUBLIC_KEYS then [query[0]] else []) + PublicPairs(query[1..])
  }

  datatype PublicUrl = PublicUrl(address: string, pairs: multiset<Pair>)

  function PublicUrlOf(link: Link): PublicUrl { PublicUrl(link.address, multiset(PublicPairs(link.query))) }

  lemma {:induction false} PublicPairsKept(query: seq<Pair>, names: Aliases)
    ensures PublicPairs(RenameQuery(query, names)) == PublicPairs(query)
  {
    hide IsToken, IsKept;
    if query != [] {
      PublicPairsKept(query[1..], names);
      var p := query[0];
      var renamed := RenameQuery(query, names);
      if p.key in PUBLIC_KEYS { ParserKeyIsKept(p.key); SsdIsNotPublic(); }
      if IsKept(p.key) {
        assert renamed[1..] == RenameQuery(query[1..], names);
        TokenIsNotPublic(p.key);
      }
    }
  }

  lemma SsdIsNotPublic()
    ensures "ssd" !in PUBLIC_KEYS
  {
    assert "ssd"[0] == 's';
  }

  lemma TokenIsNotPublic(key: string)
    ensures IsToken(key) ==> key !in PUBLIC_KEYS
  {
    if key in PUBLIC_KEYS {
      ParserKeyIsKept(key);
      SsdIsNotPublic();
    }
  }

  // ---------------------------------------------------------------- sanitising twice

  /** The table of a document that holds sentinels only: each stands for itself. */
  ghost predicate SelfAliases(aliases: Aliases, n: nat) {
    && |aliases| == n
    && (forall v :: v in aliases ==> aliases[v] == v && exists i :: 1 <= i <= n && v == Alias(i))
    && (forall i :: 1 <= i <= n ==> Alias(i) in aliases)
  }

  lemma {:induction false} SelfGrows(again: Aliases, n: nat)
    requires SelfAliases(again, n)
    ensures Alias(n + 1) !in again && SelfAliases(again[Alias(n + 1) := Alias(n + 1)], n + 1)
  {
    hide Alias;
    if Alias(n + 1) in again {
      var i :| 1 <= i <= n && Alias(n + 1) == Alias(i);
      AliasInjective(n + 1, i);
    }
    var next := again[Alias(n + 1) := Alias(n + 1)];
    forall v | v in next ensures next[v] == v && exists i :: 1 <= i <= n + 1 && v == Alias(i) {
      if v in again { var i :| 1 <= i <= n && v == Alias(i); assert i <= n + 1; }
    }
  }

  lemma {:induction false} SelfEnter(value: string, aliases: Aliases, again: Aliases)
    requires Numbered(aliases) && SelfAliases(again, |aliases|)
    ensures var entered := Enter(value, aliases);
      && SelfAliases(Enter(entered[value], again), |entered|)
      && Enter(entered[value], again)[entered[value]] == entered[value]
  {
    hide Alias;
    var n := |aliases|;
    var entered := Enter(value, aliases);
    if value in aliases {
      var i :| 1 <= i <= n && aliases[value] == Alias(i);
    } else {
      SelfGrows(again, n);
      assert |entered| == n + 1;
    }
  }

  lemma {:induction false} QueryTwice(query: seq<Pair>, aliases: Aliases, again: Aliases)
    requires Numbered(aliases) && SelfAliases(again, |aliases|)
    ensures var (kept, final) := SanitizeQuery(query, aliases);
      && Numbered(final)
      && SanitizeQuery(kept, again).0 == kept && SelfAliases(SanitizeQuery(kept, again).1, |final|)
  {
    hide Alias, Numbered, SelfAliases, IsToken, IsKept;
    if query != [] {
      var p := query[0];
      var (kept, final) := SanitizeQuery(query, aliases);
      if !IsKept(p.key) {
        QueryTwice(query[1..], aliases, again);
      } else if IsToken(p.key) && p.value != "" {
        EnterKeeps(p.value, aliases);
        var entered := Enter(p.value, aliases);
        SelfEnter(p.value, aliases, again);
        QueryTwice(query[1..], entered, Enter(entered[p.value], again));
        EnteredNotBlank(p.value, aliases);
        assert kept[1..] == SanitizeQuery(query[1..], entered).0;
      } else {
        QueryTwice(query[1..], aliases, again);
        assert kept[1..] == SanitizeQuery(query[1..], aliases).0;
      }
    }
  }

  lemma EnteredNotBlank(value: string, aliases: Aliases)
    requires Numbered(aliases)
    ensures Enter(value, aliases)[value] != ""
  {
    if value in aliases { var n :| 1 <= n <= |aliases| && aliases[value] == Alias(n); }
  }

  lemma {:induction false} LinksTwice(links: seq<Link>, aliases: Aliases, again: Aliases)
    requires Numbered(aliases) && SelfAliases(again, |aliases|)
    ensures var (kept, final) := SanitizeLinks(links, aliases); SanitizeLinks(kept, again).0 == kept
  {
    hide Numbered, SelfAliases, SanitizeQuery;
    if links != [] {
      QueryTwice(links[0].query, aliases, again);
      var (query, entered) := SanitizeQuery(links[0].query, aliases);
      LinksTwice(links[1..], entered, SanitizeQuery(query, again).1);
      var kept := SanitizeLinks(links, aliases).0;
      assert kept[1..] == SanitizeLinks(links[1..], entered).0;
    }
  }

  /** Sanitising a sanitised document changes nothing. */
  lemma SanitizingTwiceIsOnce(links: seq<Link>)
    ensures SanitizeDocument(SanitizeDocument(links)) == SanitizeDocument(links)
  {
    LinksTwice(links, map[], map[]);
  }
}
