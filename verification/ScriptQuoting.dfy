/**
What lies inside a quotation or a comment is never cut: a text of any characters, encoded for a
quotation, stays in one statement with what stands around it, and so does a comment.
*/
module ScriptQuoting {
  import opened Wrappers
  import opened Text
  import opened ScriptSplitter
  import opened ScriptRoundTrip
  import opened ScriptGrammar

  /** No quotation, comment or semicolon, and no DELIMITER line, begins between `i` and `j`. */
  ghost predicate Plain(script: string, i: nat, j: nat) {
    forall k: nat :: i <= k < j ==> PlainAt(script, k)
  }

  ghost predicate PlainAt(script: string, k: nat) {
    && !QuoteAt(script, k) && !NoteAt(script, k) && !Holds(script, k, ';')
    && (LineBegins(script, k) ==> !SettingAt(script, k))
  }

  predicate LineBegins(script: string, k: nat) { k == 0 || Holds(script, k - 1, '\n') }

  predicate HasText(s: string) { exists c :: c in s && !IsSpace(c) }

  /** `t` as it is written between two marks: a backslash behind a backslash, and the mark either twice
      or behind a backslash, as `doubled` says at its place. */
  function Encode(t: string, mark: char, doubled: seq<bool>): string
    requires |doubled| == |t|
  {
    if t == "" then ""
    else
      (if t[0] == '\\' then ['\\', '\\']
       else if t[0] == mark then (if doubled[0] then [mark, mark] else ['\\', mark])
       else [t[0]]) + Encode(t[1..], mark, doubled[1..])
  }

  function EncodedSigns(t: string, mark: char, doubled: seq<bool>): seq<Sign>
    requires |doubled| == |t|
  {
    if t == "" then []
    else
      [if t[0] == '\\' then Escaped('\\')
       else if t[0] == mark then (if doubled[0] then Doubled else Escaped(mark))
       else Itself(t[0])] + EncodedSigns(t[1..], mark, doubled[1..])
  }

  lemma {:induction false} EncodedIsSpelled(t: string, mark: char, doubled: seq<bool>)
    requires |doubled| == |t|
    ensures SpelledAll(EncodedSigns(t, mark, doubled), mark) == Encode(t, mark, doubled)
    ensures SignsFit(EncodedSigns(t, mark, doubled), mark)
  {
    if t != "" {
      EncodedIsSpelled(t[1..], mark, doubled[1..]);
      var signs := EncodedSigns(t, mark, doubled);
      assert signs == [signs[0]] + signs[1..];
      SignsJoin(signs[0], signs[1..], mark);
    }
  }

  // ---------------------------------------------------------------- plain text around an item

  function Letters(s: string): seq<Item> {
    if s == "" then [] else [Letter(s[0])] + Letters(s[1..])
  }

  lemma ItemSpells(script: string, i: nat, atLine: bool, sql: bool, item: Item, rest: seq<Item>)
    requires Fits(script, i, atLine, ";", item) && !item.Delimiter? && !item.Setting?
    requires Spells(script, i + |Written(item, ";")|, EndsLine(item), ";", sql || IsSql(item), rest)
    ensures Spells(script, i, atLine, ";", sql, [item] + rest)
  {
    hide Fits, Written, IsSql;
    assert ([item] + rest)[1..] == rest;
  }

  lemma PlainLetter(script: string, i: nat, atLine: bool, s: string)
    requires s != "" && StartsWith(script, i, s) && Plain(script, i, i + |s|) && (atLine ==> LineBegins(script, i))
    ensures Fits(script, i, atLine, ";", Letter(s[0]))
    ensures StartsWith(script, i + 1, s[1..]) && Plain(script, i + 1, i + 1 + |s[1..]|)
    ensures EndsLine(Letter(s[0])) ==> LineBegins(script, i + 1)
  {
    hide SettingAt, IsSpace, NoteAt, QuoteAt;
    assert PlainAt(script, i);
    StartsAt(script, i, s, 0);
    assert s == [s[0]] + s[1..] && s[0] in s && forall c :: c in s[1..] ==> c in s;
    SpelledStarts(script, i, [s[0]], s[1..]);
    assert script[i..i + 1][0] == script[i];
  }

  /** A line begins after the text. */
  predicate LineAfter(s: string, atLine: bool) { if s == "" then atLine else s[|s| - 1] == '\n' }

  /** Plain text before what is spelled already. */
  lemma {:induction false} TextSpells(script: string, i: nat, atLine: bool, sql: bool, s: string, rest: seq<Item>)
    requires Plain(script, i, i + |s|) && StartsWith(script, i, s) && (atLine ==> LineBegins(script, i))
    requires Spells(script, i + |s|, LineAfter(s, atLine), ";", sql || HasText(s), rest)
    ensures Spells(script, i, atLine, ";", sql, Letters(s) + rest)
    decreases s
  {
    hide SettingAt, IsSpace, Spells, Fits, StartsWith, Plain, HasText;
    if s == "" {
      assert Letters(s) + rest == rest;
      EmptyHasNoText();
    } else {
      PlainLetter(script, i, atLine, s);
      FirstHasText(s);
      TextSpells(script, i + 1, s[0] == '\n', sql || !IsSpace(s[0]), s[1..], rest);
      ItemSpells(script, i, atLine, sql, Letter(s[0]), Letters(s[1..]) + rest);
      LettersNext(s, rest, "");
    }
  }

  lemma EmptyHasNoText()
    ensures !HasText("")
  {
  }

  lemma FirstHasText(s: string)
    requires s != ""
    ensures HasText(s) <==> !IsSpace(s[0]) || HasText(s[1..])
  {
    assert s[0] in s && (forall c :: c in s ==> c == s[0] || c in s[1..]) && forall c :: c in s[1..] ==> c in s;
  }

  lemma ItemTells(item: Item, rest: seq<Item>, buffer: string, sql: bool)
    requires !item.Delimiter? && !item.Setting?
    ensures Told([item] + rest, ";", buffer, sql) == Told(rest, ";", buffer + Written(item, ";"), sql || IsSql(item))
  {
    hide Written, IsSql, Strip;
    assert ([item] + rest)[1..] == rest;
  }

  lemma {:induction false} LettersNext(s: string, rest: seq<Item>, buffer: string)
    requires s != ""
    ensures Letters(s) + rest == [Letter(s[0])] + (Letters(s[1..]) + rest)
    ensures buffer + [s[0]] + s[1..] == buffer + s
  {
  }

  lemma LetterTells(c: char, rest: seq<Item>, buffer: string, sql: bool)
    ensures Told([Letter(c)] + rest, ";", buffer, sql) == Told(rest, ";", buffer + [c], sql || !IsSpace(c))
  {
    hide IsSpace, Strip, Told;
    ItemTells(Letter(c), rest, buffer, sql);
  }

  lemma {:induction false} TextTells(s: string, rest: seq<Item>, buffer: string, sql: bool)
    ensures Told(Letters(s) + rest, ";", buffer, sql) == Told(rest, ";", buffer + s, sql || HasText(s))
    decreases s
  {
    hide IsSpace, Strip, Told, HasText;
    if s == "" {
      assert Letters(s) + rest == rest && buffer + s == buffer;
      EmptyHasNoText();
    } else {
      FirstHasText(s);
      LettersNext(s, rest, buffer);
      hide Letters;
      LetterTells(s[0], Letters(s[1..]) + rest, buffer, sql);
      TextTells(s[1..], rest, buffer + [s[0]], sql || !IsSpace(s[0]));
    }
  }

  /** One item between two plain texts, and a semicolon. */
  function Around(a: string, item: Item, b: string): string { a + Written(item, ";") + b + ";" }

  lemma AroundStarts(a: string, w: string, b: string)
    ensures var script := a + w + b + ";";
      && StartsWith(script, 0, a) && StartsWith(script, |a|, w) && StartsWith(script, |a + w|, b)
      && StartsWith(script, |a + w + b|, ";") && |script| == |a + w + b| + 1
  {
    var script := a + w + b + ";";
    assert script[..|a|] == a && script[|a|..|a + w|] == w && script[|a + w|..|a + w + b|] == b;
    assert script[|a + w + b|..] == ";";
  }

  /** A DELIMITER line begins with white space or with its word. */
  lemma SettingBegins(script: string, i: nat)
    requires SettingAt(script, i)
    ensures i < |script| && (IsSpace(script[i]) || script[i] in {'D', 'd'})
  {
    var e: nat, d: string :| LineAt(script, i, e) && Sets(script[i..e], d);
    var line := script[i..e];
    var j: nat, k: nat, l: nat :| DirectiveParts(line, j, k, l) && line[k..l] == d;
    assert line[0] == script[i];
    if j == 0 { assert line[0] == line[0..|KEYWORD|][0]; }
  }

  /** The semicolon at the end. */
  lemma EndSpells(script: string, i: nat, atLine: bool, sql: bool)
    requires |script| == i + 1 && script[i] == ';'
    ensures Spells(script, i, atLine, ";", sql, [Delimiter])
  {
    if SettingAt(script, i) { SettingBegins(script, i); }
    hide SettingAt;
    assert [Delimiter][1..] == [];
    assert script[i..i + 1] == ";";
  }

  lemma DelimiterTells(buffer: string, sql: bool)
    ensures Told([Delimiter], ";", buffer, sql) == if sql then [Strip(buffer)] else []
  {
    hide Strip;
    assert [Delimiter][1..] == [];
  }

  function AroundItems(a: string, item: Item, b: string): seq<Item> {
    Letters(a) + ([item] + (Letters(b) + [Delimiter]))
  }

  /** `a` and `b` are plain where they stand around the item. */
  ghost predicate PlainAround(a: string, w: string, b: string) {
    Plain(a + w + b + ";", 0, |a|) && Plain(a + w + b + ";", |a + w|, |a + w + b|)
  }

  lemma AroundSpells(a: string, item: Item, b: string)
    requires PlainAround(a, Written(item, ";"), b) && !item.Delimiter? && !item.Setting?
    requires forall atLine :: Fits(Around(a, item, b), |a|, atLine, ";", item)
    requires EndsLine(item) ==> LineBegins(Around(a, item, b), |a + Written(item, ";")|)
    ensures Spells(Around(a, item, b), 0, true, ";", false, AroundItems(a, item, b))
  {
    hide SettingAt, Fits, Plain, HasText, IsSql, Written, Spells, Letters, StartsWith;
    var script, w := Around(a, item, b), Written(item, ";");
    var sqlA, sqlB := HasText(a), HasText(a) || IsSql(item);
    AroundStarts(a, w, b);
    StartsAt(script, |a + w + b|, ";", 0);
    EndSpells(script, |a + w + b|, LineAfter(b, EndsLine(item)), sqlB || HasText(b));
    var tail := Letters(b) + [Delimiter];
    TextSpells(script, |a + w|, EndsLine(item), sqlB, b, [Delimiter]);
    ItemSpells(script, |a|, LineAfter(a, true), sqlA, item, tail);
    TextSpells(script, 0, true, false, a, [item] + tail);
  }

  lemma AroundTells(a: string, item: Item, b: string)
    requires !item.Delimiter? && !item.Setting?
    ensures Told(AroundItems(a, item, b), ";", "", false)
         == if HasText(a) || IsSql(item) || HasText(b) then [Strip(a + Written(item, ";") + b)] else []
  {
    hide HasText, IsSql, Written, Strip, Told, Letters;
    var tail := Letters(b) + [Delimiter];
    TextTells(a, [item] + tail, "", false);
    assert "" + a == a;
    ItemTells(item, tail, a, HasText(a));
    TextTells(b, [Delimiter], a + Written(item, ";"), HasText(a) || IsSql(item));
    DelimiterTells(a + Written(item, ";") + b, HasText(a) || IsSql(item) || HasText(b));
  }

  /** An item that fits between two plain texts makes one statement with them, if there is any SQL. */
  lemma AroundIsRead(a: string, item: Item, b: string)
    requires PlainAround(a, Written(item, ";"), b) && !item.Delimiter? && !item.Setting?
    requires forall atLine :: Fits(Around(a, item, b), |a|, atLine, ";", item)
    requires EndsLine(item) ==> LineBegins(Around(a, item, b), |a + Written(item, ";")|)
    ensures Split(Around(a, item, b))
         == Success(if HasText(a) || IsSql(item) || HasText(b) then [Strip(a + Written(item, ";") + b)] else [])
  {
    hide SettingAt, Fits, PlainAround, HasText, IsSql, Split, Strip, Written, Told, Spells, AroundItems, Around,
         LineBegins;
    AroundSpells(a, item, b);
    AroundTells(a, item, b);
    SplitsIffSpelled(Around(a, item, b), Told(AroundItems(a, item, b), ";", "", false));
  }

  // ---------------------------------------------------------------- what is kept

  /** A mark or a sign of a comment does not begin a DELIMITER line. */
  lemma NoSettingHere(script: string, i: nat)
    requires i < |script| && script[i] in {'\'', '"', '`', '/', '#', '-'}
    ensures !SettingAt(script, i)
  {
    if SettingAt(script, i) { SettingBegins(script, i); }
  }

  lemma NoMarkAfter(a: string, w: string, b: string, mark: char)
    requires PlainAround(a, w, b) && mark in {'\'', '"', '`'}
    ensures !Holds(a + w + b + ";", |a + w|, mark)
  {
    hide NoteAt, SettingAt;
    var script := a + w + b + ";";
    if b == "" {
      assert script[|a + w|] == ';';
    } else {
      assert PlainAt(script, |a + w|);
    }
  }

  /** Any text encoded between two marks, with plain text before and after it, is one statement. */
  lemma QuotedTextIsKept(a: string, t: string, mark: char, doubled: seq<bool>, b: string)
    requires mark in {'\'', '"', '`'} && |doubled| == |t|
    requires PlainAround(a, [mark] + Encode(t, mark, doubled) + [mark], b)
    ensures var text := a + ([mark] + Encode(t, mark, doubled) + [mark]) + b;
      Split(text + ";") == Success([Strip(text)])
  {
    hide SettingAt, IsSpace, PlainAround, HasText, Split, Strip;
    var item := Quotation(mark, EncodedSigns(t, mark, doubled));
    EncodedIsSpelled(t, mark, doubled);
    var w := Written(item, ";");
    AroundStarts(a, w, b);
    var script := a + w + b + ";";
    StartsAt(script, |a|, w, 0);
    NoSettingHere(script, |a|);
    NoMarkAfter(a, w, b, mark);
    AroundIsRead(a, item, b);
  }

  /** A block comment is never cut, and makes a statement of its own when it begins with an exclamation mark. */
  lemma BlockCommentIsKept(a: string, inside: string, b: string)
    requires PlainAround(a, "/*" + inside + "*/", b)
    requires forall k :: 0 <= k < |inside| - 1 ==> !(inside[k] == '*' && inside[k + 1] == '/')
    ensures var text := a + ("/*" + inside + "*/") + b;
      Split(text + ";")
        == Success(if HasText(a) || HasText(b) || (inside != "" && inside[0] == '!') then [Strip(text)] else [])
  {
    hide SettingAt, IsSpace, PlainAround, HasText, Split, Strip;
    var item := BlockNote(inside);
    var w := Written(item, ";");
    AroundStarts(a, w, b);
    StartsAt(a + w + b + ";", |a|, w, 0);
    NoSettingHere(a + w + b + ";", |a|);
    AroundIsRead(a, item, b);
  }

  /** A line comment is never cut and holds no SQL: two dashes open one only before white space. */
  lemma LineCommentIsKept(a: string, opening: string, inside: string, b: string)
    requires PlainAround(a, opening + inside + "\n", b) && '\n' !in inside
    requires opening == "#" || (opening == "--" && (inside == "" || IsSpace(inside[0])))
    ensures var text := a + (opening + inside + "\n") + b;
      Split(text + ";") == Success(if HasText(a) || HasText(b) then [Strip(text)] else [])
  {
    hide SettingAt, PlainAround, HasText, Split, Strip;
    var item := LineNote(opening, inside, true);
    var w := Written(item, ";");
    AroundStarts(a, w, b);
    var script := a + w + b + ";";
    StartsAt(script, |a|, w, 0);
    StartsAt(script, |a|, w, |w| - 1);
    NoSettingHere(script, |a|);
    if opening == "--" { StartsAt(script, |a|, w, 2); }
    AroundIsRead(a, item, b);
  }
}
