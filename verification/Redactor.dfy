/**
The sanitiser as it runs: one dictionary of aliases per document, filled while URL attributes are
rewritten in place, element after element.
*/
module Redactor {
  import opened Links
  import opened Sanitizer

  class Redactor {
    var aliases: Aliases

    constructor ()
      ensures aliases == map[]
    {
      aliases := map[];
    }

    method SanitizeUrlValue(link: Link) returns (sanitized: Link)
      modifies this
      ensures var (query, final) := SanitizeQuery(link.query, old(aliases));
        sanitized == link.(query := query, rest := "") && aliases == final
    {
      hide Alias, IsKept, IsToken;
      var query: seq<Pair> := [];
      var i := 0;
      assert link.query[0..] == link.query;
      assert [] + SanitizeQuery(link.query, aliases).0 == SanitizeQuery(link.query, aliases).0;
      while i < |link.query|
        invariant 0 <= i <= |link.query|
        invariant var (rest, final) := SanitizeQuery(link.query[i..], aliases);
          SanitizeQuery(link.query, old(aliases)) == (query + rest, final)
      {
        var p := link.query[i];
        assert link.query[i..][0] == p && link.query[i..][1..] == link.query[i + 1..];
        ghost var rest := SanitizeQuery(link.query[i..], aliases).0;
        i := i + 1;
        if !IsKept(p.key) { continue; }
        var item := p.value;
        if IsToken(p.key) && item != "" {
          if item !in aliases {
            var index := |aliases| + 1;
            aliases := aliases[item := Alias(index)];
          }
          item := aliases[item];
        }
        assert rest == [Pair(p.key, item)] + rest[1..];
        assert query + rest == (query + [Pair(p.key, item)]) + rest[1..];
        query := query + [Pair(p.key, item)];
      }
      sanitized := link.(query := query, rest := "");
    }
  }

  method SanitizeAttributes(links: seq<Link>) returns (sanitized: seq<Link>)
    ensures sanitized == SanitizeDocument(links)
  {
    hide SanitizeQuery;
    var redactor := new Redactor();
    sanitized := [];
    for i := 0 to |links|
      invariant fresh(redactor)
      invariant SanitizeLinks(links, map[]).0 == sanitized + SanitizeLinks(links[i..], redactor.aliases).0
    {
      assert links[i..][0] == links[i] && links[i..][1..] == links[i + 1..];
      ghost var rest := SanitizeLinks(links[i..], redactor.aliases).0;
      var link := redactor.SanitizeUrlValue(links[i]);
      assert rest == [link] + SanitizeLinks(links[i + 1..], redactor.aliases).0;
      assert sanitized + rest == (sanitized + [link]) + SanitizeLinks(links[i + 1..], redactor.aliases).0;
      sanitized := sanitized + [link];
    }
    assert links[|links|..] == [];
  }
}
