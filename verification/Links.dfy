/**
Catalog links as the parsers see them: an address, the decoded query pairs in document order, and
whatever else the URL spells.
*/
module Links {
  import opened Wrappers

  /** The catalog page a link leads to on the site, or some other place. */
  datatype Endpoint = Pick | VehiclePage | Unit | Elsewhere

  datatype Pair = Pair(key: string, value: string)

  /** `rest` is everything the query pairs do not show: the fragment and the exact spelling. */
  datatype Link = Link(address: string, endpoint: Endpoint, query: seq<Pair>, rest: string)

  /** The first value of a query key; blank values count as missing. */
  function First(query: seq<Pair>, key: string): (value: Option<string>)
    ensures value.Some? ==> value.value != ""
  {
    if query == [] then None
    else if query[0].key == key && query[0].value != "" then Some(query[0].value)
    else First(query[1..], key)
  }

  function Qs(link: Link, key: string): Option<string> { First(link.query, key) }

  /** The query carries `value` under `key`, and no other value but blank ones before it. */
  ghost predicate Asks(query: seq<Pair>, key: string, value: string) {
    exists n :: 0 <= n < |query| && query[n] == Pair(key, value) && value != "" && NothingBefore(query, key, n)
  }

  ghost predicate NothingBefore(query: seq<Pair>, key: string, n: nat)
    requires n <= |query|
  {
    forall m :: 0 <= m < n ==> query[m].key != key || query[m].value == ""
  }

  lemma {:induction false} FirstIff(query: seq<Pair>, key: string, value: string)
    ensures First(query, key) == Some(value) <==> Asks(query, key, value)
    ensures First(query, key) == None <==> NothingBefore(query, key, |query|)
  {
    if query != [] {
      FirstIff(query[1..], key, value);
      assert forall m :: 0 < m < |query| ==> query[m] == query[1..][m - 1];
      if query[0].key == key && query[0].value != "" {
        assert query[0] == Pair(key, query[0].value) && NothingBefore(query, key, 0);
        assert !NothingBefore(query, key, |query|);
      } else {
        AsksLater(query, key, value);
      }
    }
  }

  lemma AsksLater(query: seq<Pair>, key: string, value: string)
    requires query != [] && (query[0].key != key || query[0].value == "")
    ensures Asks(query, key, value) <==> Asks(query[1..], key, value)
    ensures NothingBefore(query, key, |query|) <==> NothingBefore(query[1..], key, |query| - 1)
  {
    var rest := query[1..];
    assert forall m :: 0 < m < |query| ==> query[m] == rest[m - 1];
    if Asks(query, key, value) {
      var n :| 0 <= n < |query| && query[n] == Pair(key, value) && value != "" && NothingBefore(query, key, n);
      assert rest[n - 1] == Pair(key, value) && NothingBefore(rest, key, n - 1);
    }
    if Asks(rest, key, value) {
      var n :| 0 <= n < |rest| && rest[n] == Pair(key, value) && value != "" && NothingBefore(rest, key, n);
      assert query[n + 1] == Pair(key, value) && NothingBefore(query, key, n + 1);
    }
  }

  /** With a known request context, a foreign value is refused; a missing one may be tolerated. */
  predicate ContextMismatch(link: Link, key: string, expected: Option<string>, allowMissing: bool) {
    && expected.Some?
    && var actual := Qs(link, key);
       if actual.None? then !allowMissing else actual != expected
  }

  /** How a candidate link is told from others: by its request values, or by the whole link when
      these do not identify it. */
  datatype Identity = ByValues(values: seq<Option<string>>) | ByLink(values: seq<Option<string>>, link: Link)

  function Values(link: Link, keys: seq<string>): (values: seq<Option<string>>)
    ensures |values| == |keys|
    ensures forall i :: 0 <= i < |keys| ==> values[i] == Qs(link, keys[i])
  {
    if keys == [] then [] else [Qs(link, keys[0])] + Values(link, keys[1..])
  }

  function CandidateIdentity(link: Link, keys: seq<string>, required: seq<string>): Identity {
    var values := Values(link, keys);
    if (forall v :: v in values ==> v.None?) || (exists key :: key in required && Qs(link, key).None?)
    then ByLink(values, link) else ByValues(values)
  }
}
