/**
What a mysql-client script is, without a lexer: a row of letters, quotations, comments, delimiters and
DELIMITER lines.  A script is accepted exactly when it can be spelled in this way, and the statements
it is cut into are the trimmed texts between its delimiters.
*/
module ScriptGrammar {
  import opened Wrappers
  import opened Text
  import opened ScriptSplitter
  import opened ScriptRoundTrip

  // ---------------------------------------------------------------- spelling

  /** One sign inside a quotation: itself, the mark written twice, or anything behind a backslash. */
  datatype Sign = Itself(c: char) | Doubled | Escaped(c: char)

  function Spelled(sign: Sign, mark: char): string {
    match sign
    case Itself(c) => [c]
    case Doubled => [mark, mark]
    case Escaped(c) => ['\\', c]
  }

  function SpelledAll(signs: seq<Sign>, mark: char): string {
    if signs == [] then "" else Spelled(signs[0], mark) + SpelledAll(signs[1..], mark)
  }

  predicate SignsFit(signs: seq<Sign>, mark: char) {
    forall sign :: sign in signs && sign.Itself? ==> sign.c != mark && sign.c != '\\'
  }

  datatype Item =
    | Letter(c: char)
    | Quotation(mark: char, signs: seq<Sign>)
    | LineNote(opening: string, inside: string, ended: bool)
    | BlockNote(inside: string)
    | Delimiter
    | Setting(line: string, ended: bool, delimiter: string)

  function Newline(ended: bool): string { if ended then "\n" else "" }

  function Written(item: Item, d: string): string {
    match item
    case Letter(c) => [c]
    case Quotation(mark, signs) => [mark] + SpelledAll(signs, mark) + [mark]
    case LineNote(opening, inside, ended) => opening + inside + Newline(ended)
    case BlockNote(inside) => "/*" + inside + "*/"
    case Delimiter => d
    case Setting(line, ended, _) => line + Newline(ended)
  }

  // ---------------------------------------------------------------- where an item may stand

  /** White space, the word DELIMITER, white space, `d` without white space, white space. */
  ghost predicate Sets(line: string, d: string) {
    exists i: nat, j: nat, k: nat :: DirectiveParts(line, i, j, k) && line[j..k] == d
  }

  predicate LineAt(script: string, i: nat, e: nat) {
    && i <= e <= |script| && (e == |script| || script[e] == '\n')
    && forall k :: i <= k < e ==> script[k] != '\n'
  }

  ghost predicate SettingAt(script: string, i: nat) {
    exists e: nat, d :: LineAt(script, i, e) && Sets(script[i..e], d)
  }

  predicate NoteAt(script: string, i: nat) {
    || Holds(script, i, '#')
    || (Holds(script, i, '/') && Holds(script, i + 1, '*'))
    || (Holds(script, i, '-') && Holds(script, i + 1, '-') && (i + 2 == |script| || IsSpace(script[i + 2])))
  }

  predicate QuoteAt(script: string, i: nat) {
    Holds(script, i, '\'') || Holds(script, i, '"') || Holds(script, i, '`')
  }

  /** `item` is spelled at `i`, and what stands there cannot be read as an item of another kind. */
  ghost predicate Fits(script: string, i: nat, atLine: bool, d: string, item: Item) {
    && StartsWith(script, i, Written(item, d))
    && (atLine && SettingAt(script, i) ==> item.Setting?)
    && var j := i + |Written(item, d)|;
       match item
       case Letter(c) => !NoteAt(script, i) && !QuoteAt(script, i) && !StartsWith(script, i, d)
       case Quotation(mark, signs) => mark in {'\'', '"', '`'} && SignsFit(signs, mark) && !Holds(script, j, mark)
       case LineNote(opening, inside, ended) =>
         && (opening == "#" || (opening == "--" && (j == i + 2 || IsSpace(script[i + 2]))))
         && '\n' !in inside && (!ended ==> j == |script|)
       case BlockNote(inside) => forall k :: 0 <= k < |inside| - 1 ==> !(inside[k] == '*' && inside[k + 1] == '/')
       case Delimiter => !NoteAt(script, i) && !QuoteAt(script, i)
       case Setting(line, ended, next) =>
         atLine && '\n' !in line && Sets(line, next) && (!ended ==> j == |script|)
  }

  /** A line begins after the item. */
  predicate EndsLine(item: Item) {
    match item
    case Letter(c) => c == '\n'
    case LineNote(_, _, ended) => ended
    case Setting(_, _, _) => true
    case _ => false
  }

  /** A comment is SQL when it begins with an exclamation mark. */
  predicate IsSql(item: Item) {
    match item
    case Letter(c) => !IsSpace(c)
    case Quotation(_, _) => true
    case BlockNote(inside) => inside != "" && inside[0] == '!'
    case _ => false
  }

  /** The script from `i` on is spelled by the items; `sql` says whether a statement has begun. */
  ghost predicate Spells(script: string, i: nat, atLine: bool, d: string, sql: bool, items: seq<Item>)
    decreases items
  {
    if items == [] then i == |script| && !sql
    else
      var item := items[0];
      && Fits(script, i, atLine, d, item) && (item.Setting? ==> !sql)
      && Spells(script, i + |Written(item, d)|, EndsLine(item), if item.Setting? then item.delimiter else d,
                !item.Delimiter? && (sql || IsSql(item)), items[1..])
  }

  /** The texts between delimiters that hold SQL, trimmed; `buffer` was read before the items. */
  function Told(items: seq<Item>, d: string, buffer: string, sql: bool): seq<string> {
    if items == [] then []
    else
      var rest := items[1..];
      match items[0]
      case Delimiter => (if sql then [Strip(buffer)] else []) + Told(rest, d, "", false)
      case Setting(_, _, next) => Told(rest, next, "", false)
      case item => Told(rest, d, buffer + Written(item, d), sql || IsSql(item))
  }

  // ---------------------------------------------------------------- DELIMITER lines

  lemma SetsIff(line: string, d: string)
    ensures Sets(line, d) <==> DirectiveOf(line) == Some(d)
  {
    hide DirectiveOf;
    if Sets(line, d) {
      var i: nat, j: nat, k: nat :| DirectiveParts(line, i, j, k) && line[j..k] == d;
      PartsMakeDirective(line, i, j, k);
    }
    if DirectiveOf(line) == Some(d) {
      var i, j, k := DirectiveHasParts(line);
      PartsMakeDirective(line, i, j, k);
    }
  }

  lemma {:induction false} LineEndStands(script: string, i: nat)
    requires i <= |script|
    ensures LineAt(script, i, LineEnd(script, i))
    decreases |script| - i
  {
    if i < |script| && script[i] != '\n' { LineEndStands(script, i + 1); }
  }

  lemma LineAtIs(script: string, i: nat, e: nat)
    requires LineAt(script, i, e)
    ensures e == LineEnd(script, i)
  {
    LineEndStands(script, i);
  }

  lemma SettingAtIff(script: string, i: nat)
    requires i <= |script|
    ensures SettingAt(script, i) <==> DirectiveOf(script[i..LineEnd(script, i)]).Some?
  {
    hide DirectiveOf, Sets, LineEnd;
    var end := LineEnd(script, i);
    LineEndStands(script, i);
    if SettingAt(script, i) {
      var e: nat, d :| LineAt(script, i, e) && Sets(script[i..e], d);
      LineAtIs(script, i, e);
      SetsIff(script[i..e], d);
    }
    if DirectiveOf(script[i..end]).Some? { SetsIff(script[i..end], DirectiveOf(script[i..end]).value); }
  }

  // ---------------------------------------------------------------- the lexer in the middle of an item

  lemma QuietStep(script: string, st: State)
    requires Within(script, st) && st.index < |script| && Step(script, st).Move? && Step(script, st).pieces == []
    ensures Run(script, st) == Run(script, Step(script, st).next)
  {
    hide Step;
    var next := Step(script, st).next;
    var r := Run(script, next);
    if r.Success? { assert [] + r.value == r.value; }
  }

  /** Inside a quotation and inside a comment no line is a directive. */
  predicate Inside(st: State) {
    st.mode.Quoted? || st.mode.InBlock? || (st.mode.InLine? && st.lineStart < st.index)
  }

  lemma InsideStep(script: string, st: State)
    requires Within(script, st) && st.index < |script| && Inside(st)
    ensures Step(script, st) == StepMode(script, st) && Step(script, st).Move? && Step(script, st).pieces == []
    ensures Run(script, st) == Run(script, Step(script, st).next)
  {
    hide DirectiveOf;
    QuietStep(script, st);
  }

  /** The states in which an item begins and ends: nothing else is open. */
  predicate Between(script: string, st: State) {
    Within(script, st) && st.mode.Normal? && st.lineStart <= st.index && st.delimiter != ""
  }

  /** From `st` the lexer gets to `next` without a word: only the buffer has grown. */
  ghost predicate Grows(script: string, st: State, next: State, j: nat, sql: bool, atLine: bool)
    requires Within(script, st)
  {
    && Between(script, next) && next.index == j && next.start == st.start && next.delimiter == st.delimiter
    && next.hasSql == sql && (next.lineStart == j <==> atLine)
    && Run(script, st) == Run(script, next)
  }

  lemma SpelledStarts(script: string, i: nat, a: string, b: string)
    requires StartsWith(script, i, a + b)
    ensures StartsWith(script, i, a) && StartsWith(script, i + |a|, b)
  {
    assert script[i..i + |a + b|][..|a|] == script[i..i + |a|];
    assert script[i..i + |a + b|][|a|..] == script[i + |a|..i + |a| + |b|];
  }

  lemma StartsTogether(script: string, i: nat, a: string, b: string)
    requires StartsWith(script, i, a) && StartsWith(script, i + |a|, b)
    ensures StartsWith(script, i, a + b)
  {
    assert script[i..i + |a| + |b|] == script[i..i + |a|] + script[i + |a|..i + |a| + |b|];
  }

  lemma StartsAt(script: string, i: nat, word: string, k: nat)
    requires StartsWith(script, i, word) && k < |word|
    ensures i + k < |script| && script[i + k] == word[k]
  {
    assert script[i..i + |word|][k] == script[i + k];
  }

  /** One sign is one step. */
  lemma SignStep(script: string, st: State, sign: Sign, rest: string)
    requires Within(script, st) && st.mode.Quoted? && st.lineStart <= st.index
    requires StartsWith(script, st.index, Spelled(sign, st.mode.mark) + rest) && rest != ""
    requires SignsFit([sign], st.mode.mark)
    ensures Step(script, st).Move?
    ensures var next := Step(script, st).next;
      && Within(script, next) && next.lineStart <= next.index && Run(script, st) == Run(script, next)
      && next == st.(index := st.index + |Spelled(sign, st.mode.mark)|, lineStart := next.lineStart)
  {
    hide Run;
    var word := Spelled(sign, st.mode.mark) + rest;
    StartsAt(script, st.index, word, 0);
    StartsAt(script, st.index, word, 1);
    assert sign in [sign];
    InsideStep(script, st);
  }

  /** The signs of a quotation and its closing mark. */
  lemma {:induction false} QuotationRuns(script: string, st: State, signs: seq<Sign>) returns (next: State)
    requires Within(script, st) && st.mode.Quoted? && st.lineStart <= st.index && st.delimiter != ""
    requires var mark := st.mode.mark;
      && SignsFit(signs, mark) && StartsWith(script, st.index, SpelledAll(signs, mark) + [mark])
      && !Holds(script, st.index + |SpelledAll(signs, mark)| + 1, mark) && mark in {'\'', '"', '`'}
    ensures Grows(script, st, next, st.index + |SpelledAll(signs, st.mode.mark)| + 1, st.hasSql, false)
    decreases signs
  {
    hide Run, StartsWith;
    var mark := st.mode.mark;
    if signs == [] {
      assert SpelledAll(signs, mark) + [mark] == [mark];
      StartsAt(script, st.index, [mark], 0);
      InsideStep(script, st);
      next := Step(script, st).next;
    } else {
      var first, rest := Spelled(signs[0], mark), SpelledAll(signs[1..], mark) + [mark];
      assert SpelledAll(signs, mark) + [mark] == first + rest;
      assert signs[0] in signs;
      SignStep(script, st, signs[0], rest);
      SpelledStarts(script, st.index, first, rest);
      next := QuotationRuns(script, Step(script, st).next, signs[1..]);
    }
  }

  /** The rest of a line comment. */
  lemma {:induction false} NoteRuns(script: string, st: State, inside: string, ended: bool) returns (next: State)
    requires Within(script, st) && st.mode.InLine? && st.lineStart < st.index && st.delimiter != ""
    requires StartsWith(script, st.index, inside + Newline(ended)) && '\n' !in inside
    requires !ended ==> st.index + |inside| == |script|
    ensures ended ==> Grows(script, st, next, st.index + |inside| + 1, st.hasSql, true)
    ensures !ended ==>
      next == st.(index := |script|) && Within(script, next) && Run(script, st) == Run(script, next)
    decreases inside
  {
    hide Run;
    var word := inside + Newline(ended);
    if inside == "" {
      next := st;
      if ended {
        StartsAt(script, st.index, word, 0);
        InsideStep(script, st);
        next := Step(script, st).next;
      }
    } else {
      StartsAt(script, st.index, word, 0);
      InsideStep(script, st);
      assert word == [inside[0]] + (inside[1..] + Newline(ended));
      SpelledStarts(script, st.index, [inside[0]], inside[1..] + Newline(ended));
      next := NoteRuns(script, Step(script, st).next, inside[1..], ended);
    }
  }

  /** The rest of a block comment. */
  lemma {:induction false} BlockRuns(script: string, st: State, inside: string) returns (next: State)
    requires Within(script, st) && st.mode.InBlock? && st.lineStart <= st.index && st.delimiter != ""
    requires StartsWith(script, st.index, inside + "*/")
    requires forall k :: 0 <= k < |inside| - 1 ==> !(inside[k] == '*' && inside[k + 1] == '/')
    ensures Grows(script, st, next, st.index + |inside| + 2, st.hasSql, false)
    decreases inside
  {
    hide Run;
    var word := inside + "*/";
    StartsAt(script, st.index, word, 0);
    StartsAt(script, st.index, word, 1);
    InsideStep(script, st);
    next := Step(script, st).next;
    if inside != "" {
      assert word == [inside[0]] + (inside[1..] + "*/");
      SpelledStarts(script, st.index, [inside[0]], inside[1..] + "*/");
      next := BlockRuns(script, next, inside[1..]);
    }
  }

  // ---------------------------------------------------------------- one item

  /** No directive begins here. */
  lemma NoSetting(script: string, st: State, item: Item)
    requires Between(script, st) && !item.Setting?
    requires Fits(script, st.index, st.index == st.lineStart, st.delimiter, item)
    ensures DirectiveHere(script, st).None?
  {
    hide DirectiveOf, LineEnd, SettingAt;
    SettingAtIff(script, st.index);
  }

  lemma LetterStep(script: string, st: State, c: char) returns (next: State)
    requires Between(script, st) && Fits(script, st.index, st.index == st.lineStart, st.delimiter, Letter(c))
    ensures Grows(script, st, next, st.index + 1, st.hasSql || !IsSpace(c), c == '\n')
  {
    hide DirectiveOf, IsSpace, SettingAt, Run;
    NoSetting(script, st, Letter(c));
    StartsAt(script, st.index, [c], 0);
    QuietStep(script, st);
    next := Step(script, st).next;
  }

  /** The opening of a quotation or of a comment, which is one step. */
  lemma OpeningStep(script: string, st: State, opening: string, mode: Mode, sql: bool)
    requires Between(script, st) && StartsWith(script, st.index, opening) && DirectiveHere(script, st).None?
    requires
      || (opening == "#" && mode == InLine && !sql)
      || (opening == "--" && mode == InLine && !sql && StartsDashComment(script, st.index))
      || (opening == "/*" && mode == InBlock && (sql <==> Holds(script, st.index + 2, '!')))
      || (|opening| == 1 && opening[0] in {'\'', '"', '`'} && mode == Quoted(opening[0]) && sql)
    ensures st.index < |script|
    ensures var next := st.(index := st.index + |opening|, mode := mode, hasSql := st.hasSql || sql);
      Within(script, next) && Step(script, st) == Move(next, []) && Run(script, st) == Run(script, next)
  {
    hide DirectiveOf, IsSpace, Run;
    StartsAt(script, st.index, opening, 0);
    if |opening| > 1 { StartsAt(script, st.index, opening, 1); }
    QuietStep(script, st);
  }

  lemma QuotationStep(script: string, st: State, item: Item) returns (next: State)
    requires item.Quotation? && Between(script, st)
    requires Fits(script, st.index, st.index == st.lineStart, st.delimiter, item)
    ensures Grows(script, st, next, st.index + |Written(item, st.delimiter)|, true, false)
  {
    hide IsSpace, SettingAt, Run, StartsWith, Step, DirectiveHere;
    NoSetting(script, st, item);
    var rest := SpelledAll(item.signs, item.mark) + [item.mark];
    assert Written(item, st.delimiter) == [item.mark] + rest;
    SpelledStarts(script, st.index, [item.mark], rest);
    OpeningStep(script, st, [item.mark], Quoted(item.mark), true);
    next := QuotationRuns(script, Step(script, st).next, item.signs);
  }

  lemma BlockStep(script: string, st: State, item: Item) returns (next: State)
    requires item.BlockNote? && Between(script, st)
    requires Fits(script, st.index, st.index == st.lineStart, st.delimiter, item)
    ensures Grows(script, st, next, st.index + |Written(item, st.delimiter)|, st.hasSql || IsSql(item), false)
  {
    hide IsSpace, SettingAt, Run, StartsWith, Step, DirectiveHere;
    NoSetting(script, st, item);
    var rest := item.inside + "*/";
    assert Written(item, st.delimiter) == "/*" + rest;
    SpelledStarts(script, st.index, "/*", rest);
    StartsAt(script, st.index + 2, rest, 0);
    OpeningStep(script, st, "/*", InBlock, IsSql(item));
    next := BlockRuns(script, Step(script, st).next, item.inside);
  }

  lemma NoteStep(script: string, st: State, item: Item) returns (next: State)
    requires item.LineNote? && Between(script, st)
    requires Fits(script, st.index, st.index == st.lineStart, st.delimiter, item)
    ensures var j := st.index + |Written(item, st.delimiter)|;
      if item.ended then Grows(script, st, next, j, st.hasSql, true)
      else
        j == |script| && Within(script, next) && Run(script, st) == Run(script, next)
        && next == st.(index := j, mode := InLine)
  {
    hide IsSpace, SettingAt, Run, StartsWith, Step, DirectiveHere;
    NoSetting(script, st, item);
    var rest := item.inside + Newline(item.ended);
    assert Written(item, st.delimiter) == item.opening + rest;
    SpelledStarts(script, st.index, item.opening, rest);
    OpeningStep(script, st, item.opening, InLine, false);
    next := NoteRuns(script, Step(script, st).next, item.inside, item.ended);
  }

  lemma GrowingStep(script: string, st: State, item: Item) returns (next: State)
    requires (item.Letter? || item.Quotation? || item.BlockNote?) && Between(script, st)
    requires Fits(script, st.index, st.index == st.lineStart, st.delimiter, item)
    ensures Grows(script, st, next, st.index + |Written(item, st.delimiter)|, st.hasSql || IsSql(item), EndsLine(item))
  {
    hide Fits, IsSpace, Run, Grows;
    match item
    case Letter(c) => next := LetterStep(script, st, c);
    case Quotation(_, _) => next := QuotationStep(script, st, item);
    case BlockNote(_) => next := BlockStep(script, st, item);
  }

  lemma DelimiterStep(script: string, st: State)
    requires Between(script, st)
    requires Fits(script, st.index, st.index == st.lineStart, st.delimiter, Delimiter)
    ensures st.index < |script|
    ensures var j := st.index + |st.delimiter|;
      var next := st.(index := j, start := j, hasSql := false);
      Between(script, next) && next.lineStart < j
      && Step(script, st) == Move(next, [Buffered(script, st), Separator(st.delimiter)])
  {
    hide DirectiveOf, IsSpace, SettingAt, Run;
    NoSetting(script, st, Delimiter);
    StartsAt(script, st.index, st.delimiter, 0);
  }

  lemma SettingStep(script: string, st: State, item: Item)
    requires item.Setting? && Between(script, st) && !st.hasSql
    requires Fits(script, st.index, st.index == st.lineStart, st.delimiter, item)
    ensures st.index < |script| && item.delimiter != ""
    ensures var j := st.index + |Written(item, st.delimiter)|;
      var next := State(j, j, j, item.delimiter, Normal, false);
      Between(script, next)
      && Step(script, st) == Move(next, [Blank(script[st.start..st.index]), Directive(script[st.index..j])])
  {
    hide DirectiveOf, IsSpace, SettingAt, Run;
    var i, line := st.index, item.line;
    SetsIff(line, item.delimiter);
    DirectiveHasText(line);
    DirectiveIsText(line);
    SpelledStarts(script, i, line, Newline(item.ended));
    assert script[i..i + |line|] == line;
    if item.ended { StartsAt(script, i + |line|, "\n", 0); }
    forall k | i <= k < i + |line| ensures script[k] != '\n' { StartsAt(script, i, line, k - i); }
    LineAtIs(script, i, i + |line|);
  }

  lemma DirectiveIsText(line: string)
    requires DirectiveOf(line).Some?
    ensures line != ""
  {
    hide IsKeyword;
  }

  // ---------------------------------------------------------------- a whole script

  lemma StatementsOfPiece(a: Piece, b: Piece, rest: seq<Piece>)
    requires !b.Statement?
    ensures Statements([a, b] + rest) == (if a.Statement? then [Strip(a.text)] else []) + Statements(rest)
  {
    hide Strip;
    assert ([a, b] + rest)[1..] == [b] + rest;
    assert ([b] + rest)[1..] == rest;
    assert [] + Statements(rest) == Statements(rest);
  }

  /** What is read from `st` on is what the items tell. */
  ghost predicate Reads(script: string, st: State, items: seq<Item>)
    requires Within(script, st)
  {
    var r := Run(script, st);
    r.Success? && Statements(r.value) == Told(items, st.delimiter, script[st.start..st.index], st.hasSql)
  }

  lemma DelimiterIsRead(script: string, st: State, items: seq<Item>)
    requires Between(script, st) && items != [] && items[0].Delimiter? && st.index < |script|
    requires var j := st.index + |st.delimiter|;
      var next := st.(index := j, start := j, hasSql := false);
      && Within(script, next) && Reads(script, next, items[1..])
      && Step(script, st) == Move(next, [Buffered(script, st), Separator(st.delimiter)])
    ensures Reads(script, st, items)
  {
    hide Step, Strip, Statements;
    var next := Step(script, st).next;
    StatementsOfPiece(Buffered(script, st), Separator(st.delimiter), Run(script, next).value);
    assert script[next.start..next.index] == "";
  }

  lemma SettingIsRead(script: string, st: State, items: seq<Item>)
    requires Between(script, st) && items != [] && items[0].Setting? && st.index < |script|
    requires var j := st.index + |Written(items[0], st.delimiter)|;
      var next := State(j, j, j, items[0].delimiter, Normal, false);
      && Within(script, next) && Reads(script, next, items[1..])
      && Step(script, st) == Move(next, [Blank(script[st.start..st.index]), Directive(script[st.index..j])])
    ensures Reads(script, st, items)
  {
    hide Step, Strip, Statements;
    var next := Step(script, st).next;
    var pieces := Step(script, st).pieces;
    StatementsOfPiece(pieces[0], pieces[1], Run(script, next).value);
    assert script[next.start..next.index] == "";
  }

  lemma BufferGrows(script: string, st: State, item: Item)
    requires Within(script, st) && StartsWith(script, st.index, Written(item, st.delimiter))
    ensures var j := st.index + |Written(item, st.delimiter)|;
      script[st.start..st.index] + Written(item, st.delimiter) == script[st.start..j]
  {
  }

  lemma GrowingIsRead(script: string, st: State, next: State, items: seq<Item>)
    requires Within(script, st) && Within(script, next) && items != [] && !items[0].Delimiter? && !items[0].Setting?
    requires StartsWith(script, st.index, Written(items[0], st.delimiter)) && Run(script, st) == Run(script, next)
    requires next.index == st.index + |Written(items[0], st.delimiter)| && next.start == st.start
    requires next.delimiter == st.delimiter && next.hasSql == (st.hasSql || IsSql(items[0]))
    requires Reads(script, next, items[1..])
    ensures Reads(script, st, items)
  {
    hide Run, Strip, IsSql, Statements, Written;
    BufferGrows(script, st, items[0]);
  }

  lemma NothingFollows(script: string, d: string, sql: bool, items: seq<Item>)
    requires Spells(script, |script|, false, d, sql, items) && d != ""
    ensures items == [] && !sql
  {
    hide SettingAt, IsSpace, DirectiveParts;
  }

  /** A comment that runs to the end of the script is the last item. */
  lemma LastNoteIsRead(script: string, st: State, next: State, items: seq<Item>)
    requires Within(script, st) && Within(script, next) && items != [] && items[0].LineNote?
    requires next.mode.InLine? && next.index == |script| && next.start == st.start && next.delimiter == st.delimiter
    requires next.hasSql == st.hasSql && Run(script, st) == Run(script, next) && st.delimiter != ""
    requires Spells(script, |script|, false, st.delimiter, st.hasSql, items[1..])
    ensures Reads(script, st, items)
  {
    NothingFollows(script, st.delimiter, st.hasSql, items[1..]);
    hide Strip, Spells, Step, Statements, Told, Run;
    NoteTellsNothing(items, st.delimiter, script[st.start..st.index], st.hasSql);
    QuietEnd(script, next);
  }

  lemma NoteTellsNothing(items: seq<Item>, d: string, buffer: string, sql: bool)
    requires |items| == 1 && items[0].LineNote?
    ensures Told(items, d, buffer, sql) == []
  {
    hide Strip;
    assert items[1..] == [];
  }

  lemma QuietEnd(script: string, next: State)
    requires Within(script, next) && next.index == |script| && !next.hasSql
    requires next.mode.InLine? || next.mode.Normal?
    ensures Run(script, next).Success? && Statements(Run(script, next).value) == []
  {
    assert Run(script, next) == Success([Blank(script[next.start..next.index])]);
  }

  /** A script that is spelled by the items is accepted, and cut into the statements they tell. */
  lemma {:induction false} SpelledIsRead(script: string, st: State, items: seq<Item>)
    requires Between(script, st)
    requires Spells(script, st.index, st.index == st.lineStart, st.delimiter, st.hasSql, items)
    ensures Reads(script, st, items)
    decreases items
  {
    hide Step, Strip, Run, Reads, Fits, Written, IsSql, StartsWith;
    if items == [] {
      NothingIsRead(script, st);
    } else {
      var item := items[0];
      FitsIsWritten(script, st.index, st.index == st.lineStart, st.delimiter, item);
      match item
      case Delimiter =>
        DelimiterStep(script, st);
        SpelledIsRead(script, Step(script, st).next, items[1..]);
        DelimiterIsRead(script, st, items);
      case Setting(_, _, _) =>
        SettingStep(script, st, item);
        SpelledIsRead(script, Step(script, st).next, items[1..]);
        SettingIsRead(script, st, items);
      case LineNote(_, _, ended) =>
        var next := NoteStep(script, st, item);
        if ended {
          SpelledIsRead(script, next, items[1..]);
          GrowingIsRead(script, st, next, items);
        } else {
          LastNoteIsRead(script, st, next, items);
        }
      case _ =>
        var next := GrowingStep(script, st, item);
        SpelledIsRead(script, next, items[1..]);
        GrowingIsRead(script, st, next, items);
    }
  }

  lemma FitsIsWritten(script: string, i: nat, atLine: bool, d: string, item: Item)
    requires Fits(script, i, atLine, d, item)
    ensures StartsWith(script, i, Written(item, d)) && (item.Delimiter? ==> Written(item, d) == d)
    ensures item.Letter? ==> |Written(item, d)| == 1
    ensures item.LineNote? || item.Setting? || item.Delimiter? ==> !IsSql(item)
    ensures !item.Delimiter? && !item.Setting? ==> |Written(item, d)| > 0
  {
    hide IsSpace, SettingAt;
  }

  lemma NothingIsRead(script: string, st: State)
    requires Between(script, st) && st.index == |script| && !st.hasSql
    ensures Reads(script, st, [])
  {
    QuietEnd(script, st);
  }

  // ---------------------------------------------------------------- finding the items of an accepted script

  /** A quotation that does not keep the script from being accepted is closed. */
  lemma {:induction false} QuotationCloses(script: string, st: State) returns (signs: seq<Sign>)
    requires Within(script, st) && st.mode.Quoted? && st.mode.mark != '\\' && Run(script, st).Success?
    ensures SignsFit(signs, st.mode.mark)
    ensures StartsWith(script, st.index, SpelledAll(signs, st.mode.mark) + [st.mode.mark])
    ensures !Holds(script, st.index + |SpelledAll(signs, st.mode.mark)| + 1, st.mode.mark)
    decreases |script| - st.index
  {
    hide Run;
    var mark := st.mode.mark;
    QuoteIsOpen(script, st);
    var c := script[st.index];
    if c == mark && !Holds(script, st.index + 1, mark) {
      signs := [];
      assert SpelledAll(signs, mark) + [mark] == [mark];
    } else {
      var sign := SignFound(script, st);
      hide Spelled, Holds, SpelledAll, Step, StartsWith;
      var rest := QuotationCloses(script, Step(script, st).next);
      signs := [sign] + rest;
      SignsJoin(sign, rest, mark);
      StartsTogether(script, st.index, Spelled(sign, mark), SpelledAll(rest, mark) + [mark]);
      assert SpelledAll(signs, mark) + [mark] == Spelled(sign, mark) + (SpelledAll(rest, mark) + [mark]);
    }
  }

  /** What stands inside an open quotation, and is not its closing mark, is one sign. */
  lemma SignFound(script: string, st: State) returns (sign: Sign)
    requires Within(script, st) && st.mode.Quoted? && st.mode.mark != '\\' && Run(script, st).Success?
    requires st.index < |script| && !(script[st.index] == st.mode.mark && !Holds(script, st.index + 1, st.mode.mark))
    ensures SignsFit([sign], st.mode.mark) && StartsWith(script, st.index, Spelled(sign, st.mode.mark))
    ensures Step(script, st).Move?
    ensures var next := Step(script, st).next;
      && Within(script, next) && Run(script, st) == Run(script, next) && next.mode == st.mode
      && next.index == st.index + |Spelled(sign, st.mode.mark)|
  {
    hide Run;
    var c, mark := script[st.index], st.mode.mark;
    sign :=
      if c == '\\' && st.index + 1 < |script| then Escaped(script[st.index + 1])
      else if c == mark then Doubled else Itself(c);
    InsideStep(script, st);
    if c == '\\' && st.index + 1 == |script| { QuoteIsOpen(script, Step(script, st).next); }
    SignStands(script, st.index, sign, mark);
  }

  lemma SignStands(script: string, i: nat, sign: Sign, mark: char)
    requires i < |script| && script[i] == Spelled(sign, mark)[0]
    requires !sign.Itself? ==> i + 1 < |script| && script[i + 1] == Spelled(sign, mark)[1]
    ensures StartsWith(script, i, Spelled(sign, mark))
  {
  }

  lemma SignsJoin(sign: Sign, rest: seq<Sign>, mark: char)
    requires SignsFit([sign], mark) && SignsFit(rest, mark)
    ensures SignsFit([sign] + rest, mark)
    ensures SpelledAll([sign] + rest, mark) == Spelled(sign, mark) + SpelledAll(rest, mark)
  {
    assert sign in [sign];
    assert ([sign] + rest)[1..] == rest;
  }

  lemma QuoteIsOpen(script: string, st: State)
    requires Within(script, st) && (st.mode.Quoted? || st.mode.InBlock?) && Run(script, st).Success?
    ensures st.index < |script|
  {
  }

  /** A block comment that does not keep the script from being accepted is closed. */
  lemma {:induction false} BlockCloses(script: string, st: State) returns (inside: string)
    requires Within(script, st) && st.mode.InBlock? && Run(script, st).Success?
    ensures StartsWith(script, st.index, inside + "*/")
    ensures forall k :: 0 <= k < |inside| - 1 ==> !(inside[k] == '*' && inside[k + 1] == '/')
    decreases |script| - st.index
  {
    hide Run;
    QuoteIsOpen(script, st);
    var c := script[st.index];
    if c == '*' && Holds(script, st.index + 1, '/') {
      inside := "";
      assert inside + "*/" == "*/";
    } else {
      InsideStep(script, st);
      var rest := BlockCloses(script, Step(script, st).next);
      inside := [c] + rest;
      StartsTogether(script, st.index, [c], rest + "*/");
      assert inside + "*/" == [c] + (rest + "*/");
      StartsAt(script, st.index + 1, rest + "*/", 0);
    }
  }

  /** A line comment that opens at `i` runs to the end of its line. */
  lemma NoteSpelled(script: string, i: nat, opening: string) returns (item: Item)
    requires StartsWith(script, i, opening)
    ensures item.LineNote? && item.opening == opening && '\n' !in item.inside
    ensures StartsWith(script, i, Written(item, "")) && (!item.ended ==> i + |Written(item, "")| == |script|)
  {
    var from := i + |opening|;
    var end := LineEnd(script, from);
    LineEndStands(script, from);
    item := LineNote(opening, script[from..end], end < |script|);
    StartsTogether(script, from, script[from..end], Newline(end < |script|));
    StartsTogether(script, i, opening, script[from..end] + Newline(end < |script|));
    assert Written(item, "") == opening + (script[from..end] + Newline(end < |script|));
  }

  lemma SettingSpelled(script: string, st: State) returns (item: Item)
    requires Between(script, st) && st.index < |script| && Run(script, st).Success? && DirectiveHere(script, st).Some?
    ensures item.Setting? && !st.hasSql && Fits(script, st.index, st.index == st.lineStart, st.delimiter, item)
  {
    hide DirectiveOf, Run, LineEnd;
    SettingIsPlaced(script, st);
    var i, end := st.index, LineEnd(script, st.index);
    LineEndStands(script, i);
    var line := script[i..end];
    item := Setting(line, end < |script|, DirectiveOf(line).value);
    SetsIff(line, item.delimiter);
    StartsTogether(script, i, line, Newline(end < |script|));
  }

  lemma SettingIsPlaced(script: string, st: State)
    requires Within(script, st) && st.index < |script| && Run(script, st).Success? && DirectiveHere(script, st).Some?
    ensures !st.hasSql
  {
    hide DirectiveHere, StepMode;
  }

  /** Whatever stands at `st.index` is an item. */
  lemma ItemFound(script: string, st: State) returns (item: Item)
    requires Between(script, st) && st.index < |script| && Run(script, st).Success?
    ensures Fits(script, st.index, st.index == st.lineStart, st.delimiter, item) && (item.Setting? ==> !st.hasSql)
  {
    hide DirectiveOf, Run, IsSpace, SettingAt, Step;
    var i := st.index;
    if DirectiveHere(script, st).Some? {
      item := SettingSpelled(script, st);
    } else {
      SettingAtIff(script, i);
      if NoteAt(script, i) {
        item := NoteFound(script, st);
      } else if QuoteAt(script, i) {
        item := QuoteFound(script, st);
      } else if StartsWith(script, i, st.delimiter) {
        item := Delimiter;
      } else {
        item := Letter(script[i]);
      }
    }
  }

  lemma QuoteFound(script: string, st: State) returns (item: Item)
    requires Between(script, st) && st.index < |script| && Run(script, st).Success? && QuoteAt(script, st.index)
    requires DirectiveHere(script, st).None? && !(st.index == st.lineStart && SettingAt(script, st.index))
    ensures !item.Setting? && Fits(script, st.index, st.index == st.lineStart, st.delimiter, item)
  {
    hide DirectiveOf, Run, IsSpace, SettingAt, Step, LineEnd;
    var i, mark := st.index, script[st.index];
    OpeningStep(script, st, [mark], Quoted(mark), true);
    var signs := QuotationCloses(script, Step(script, st).next);
    item := Quotation(mark, signs);
    StartsTogether(script, i, [mark], SpelledAll(signs, mark) + [mark]);
    assert Written(item, st.delimiter) == [mark] + (SpelledAll(signs, mark) + [mark]);
  }

  lemma NoteFound(script: string, st: State) returns (item: Item)
    requires Between(script, st) && st.index < |script| && Run(script, st).Success? && NoteAt(script, st.index)
    requires DirectiveHere(script, st).None? && !(st.index == st.lineStart && SettingAt(script, st.index))
    ensures !item.Setting? && Fits(script, st.index, st.index == st.lineStart, st.delimiter, item)
  {
    hide DirectiveOf, Run, IsSpace, SettingAt, Step, LineEnd;
    var i := st.index;
    if Holds(script, i, '/') {
      OpeningStep(script, st, "/*", InBlock, Holds(script, i + 2, '!'));
      var inside := BlockCloses(script, Step(script, st).next);
      item := BlockNote(inside);
      StartsTogether(script, i, "/*", inside + "*/");
      assert Written(item, st.delimiter) == "/*" + (inside + "*/");
    } else {
      item := NoteSpelled(script, i, if Holds(script, i, '#') then "#" else "--");
      assert Written(item, st.delimiter) == Written(item, "");
    }
  }

  /** Every script that is accepted can be spelled by items. */
  lemma {:induction false} ReadIsSpelled(script: string, st: State) returns (items: seq<Item>)
    requires Between(script, st) && Run(script, st).Success?
    ensures Spells(script, st.index, st.index == st.lineStart, st.delimiter, st.hasSql, items)
    decreases |script| - st.index
  {
    hide Step, Run, Fits, Written, IsSql, StartsWith;
    if st.index == |script| {
      items := [];
      EndIsQuiet(script, st);
    } else {
      var item := ItemFound(script, st);
      var rest;
      FitsIsWritten(script, st.index, st.index == st.lineStart, st.delimiter, item);
      match item {
        case Delimiter =>
          DelimiterStep(script, st);
          AfterPieces(script, st);
          rest := ReadIsSpelled(script, Step(script, st).next);
        case Setting(_, _, _) =>
          SettingStep(script, st, item);
          AfterPieces(script, st);
          rest := ReadIsSpelled(script, Step(script, st).next);
        case LineNote(_, _, ended) =>
          var next := NoteStep(script, st, item);
          if ended {
            rest := ReadIsSpelled(script, next);
          } else {
            EndIsQuiet(script, next);
            rest := [];
          }
        case _ =>
          var next := GrowingStep(script, st, item);
          rest := ReadIsSpelled(script, next);
      }
      items := [item] + rest;
      assert items[1..] == rest;
    }
  }

  lemma EndIsQuiet(script: string, st: State)
    requires Within(script, st) && st.index == |script| && Run(script, st).Success?
    ensures !st.hasSql
  {
  }

  lemma AfterPieces(script: string, st: State)
    requires Within(script, st) && st.index < |script| && Step(script, st).Move? && Run(script, st).Success?
    ensures Run(script, Step(script, st).next).Success?
  {
    hide Step;
  }

  // ---------------------------------------------------------------- the language of scripts

  /** A script is accepted exactly when it is spelled by items, and cut into the statements they tell. */
  lemma SplitsIffSpelled(script: string, statements: seq<string>)
    ensures Split(script) == Success(statements)
       <==> exists items :: Spells(script, 0, true, ";", false, items) && Told(items, ";", "", false) == statements
  {
    hide Run, Spells, Told, Statements;
    assert script[0..0] == "";
    if Split(script) == Success(statements) {
      var items := ReadIsSpelled(script, INITIAL);
      SpelledIsRead(script, INITIAL, items);
      assert Spells(script, 0, true, ";", false, items) && Told(items, ";", "", false) == statements;
    }
    if exists items :: Spells(script, 0, true, ";", false, items) && Told(items, ";", "", false) == statements {
      var items :| Spells(script, 0, true, ";", false, items) && Told(items, ";", "", false) == statements;
      SpelledIsRead(script, INITIAL, items);
    }
  }
}
