/**
Splitting undoes joining: statements that the lexer can read on their own, joined by a delimiter,
come back unchanged, whatever stands before or after them.
*/
module ScriptRoundTrip {
  import opened Wrappers
  import opened Text
  import opened ScriptSplitter

  // ---------------------------------------------------------------- which statements, which delimiters

  /** The state in which the lexer arrives at `stop` without emitting a piece on the way. */
  function Reach(script: string, st: State, stop: nat): Option<State>
    requires Within(script, st) && stop <= |script|
    decreases |script| - st.index
  {
    if st.index == stop then Some(st)
    else if st.index > stop then None
    else
      match Step(script, st)
      case Misplaced => None
      case Move(next, pieces) => if pieces == [] then Reach(script, next, stop) else None
  }

  /** Trimmed, holds SQL, and the lexer is back in its normal mode where the delimiter follows;
      on the way it met neither the delimiter outside quotations and comments nor a directive. */
  predicate WellFormed(s: string, d: string) {
    && Strip(s) == s && s != ""
    && var end := Reach(s + d, State(0, 0, 0, d, Normal, false), |s|);
       end.Some? && end.value.mode.Normal? && end.value.hasSql
  }

  predicate Nonblank(d: string) { d != "" && forall c :: c in d ==> !IsSpace(c) }

  /** A delimiter that no branch before the delimiter test takes apart, and that is no inner piece of
      the word DELIMITER. */
  predicate Usable(d: string) {
    && Nonblank(d)
    && d[0] !in {'#', '\'', '"', '`'}
    && d != "--" && d != "/" && !(|d| > 1 && d[0] == '/' && d[1] == '*')
    && !InnerPiece(d)
  }

  /** `d` spells `KEYWORD[i..i + |d|]`, with letters of the word before and after it. */
  predicate InnerAt(d: string, i: nat) {
    0 < i < i + |d| < |KEYWORD| && forall k :: 0 <= k < |d| ==> SameLetter(d[k], KEYWORD[i + k])
  }

  predicate InnerPiece(d: string) { exists i: nat :: i < |KEYWORD| && InnerAt(d, i) }

  function Join(statements: seq<string>, d: string): string {
    if statements == [] then "" else statements[0] + d + Join(statements[1..], d)
  }

  ghost predicate AllWellFormed(statements: seq<string>, d: string) {
    forall s :: s in statements ==> WellFormed(s, d)
  }

  // ---------------------------------------------------------------- trimmed texts

  lemma {:induction false} LeftTrimShorter(s: string)
    ensures |LeftTrim(s)| <= |s| && (LeftTrim(s) == s ==> s == "" || !IsSpace(s[0]))
  {
    if s != "" && IsSpace(s[0]) { LeftTrimShorter(s[1..]); }
  }

  lemma {:induction false} RightTrimShorter(s: string)
    ensures |RightTrim(s)| <= |s| && (RightTrim(s) == s ==> s == "" || !IsSpace(s[|s| - 1]))
  {
    if s != "" && IsSpace(s[|s| - 1]) { RightTrimShorter(s[..|s| - 1]); }
  }

  lemma {:induction false} LeftTrimFull(s: string)
    requires |LeftTrim(s)| == |s|
    ensures LeftTrim(s) == s
  {
    if s != "" && IsSpace(s[0]) { LeftTrimShorter(s[1..]); }
  }

  lemma StrippedEnds(s: string)
    requires Strip(s) == s && s != ""
    ensures !IsSpace(s[0]) && !IsSpace(s[|s| - 1])
  {
    LeftTrimShorter(s);
    RightTrimShorter(LeftTrim(s));
    LeftTrimFull(s);
    RightTrimShorter(s);
  }

  // ---------------------------------------------------------------- DELIMITER lines do not grow

  lemma {:induction false} SkipSpacesStops(s: string, i: nat)
    requires i <= |s|
    ensures var j := SkipSpaces(s, i);
      (forall k :: i <= k < j ==> IsSpace(s[k])) && (j < |s| ==> !IsSpace(s[j]))
    decreases |s| - i
  {
    if i < |s| && IsSpace(s[i]) { SkipSpacesStops(s, i + 1); }
  }

  lemma {:induction false} SkipWordStops(s: string, i: nat)
    requires i <= |s|
    ensures var j := SkipWord(s, i);
      (forall k :: i <= k < j ==> !IsSpace(s[k])) && (j < |s| ==> IsSpace(s[j]))
    decreases |s| - i
  {
    if i < |s| && !IsSpace(s[i]) { SkipWordStops(s, i + 1); }
  }

  lemma {:induction false} SkipSpacesIs(s: string, i: nat, j: nat)
    requires i <= j <= |s| && (forall k :: i <= k < j ==> IsSpace(s[k])) && (j < |s| ==> !IsSpace(s[j]))
    ensures SkipSpaces(s, i) == j
    decreases j - i
  {
    if i < j { SkipSpacesIs(s, i + 1, j); }
  }

  lemma {:induction false} SkipWordIs(s: string, i: nat, j: nat)
    requires i <= j <= |s| && (forall k :: i <= k < j ==> !IsSpace(s[k])) && (j < |s| ==> IsSpace(s[j]))
    ensures SkipWord(s, i) == j
    decreases j - i
  {
    if i < j { SkipWordIs(s, i + 1, j); }
  }

  /** A directive, with the positions of its parts. */
  ghost predicate DirectiveParts(line: string, i: nat, j: nat, k: nat) {
    && i + |KEYWORD| < j < k <= |line|
    && (forall n :: 0 <= n < i ==> IsSpace(line[n]))
    && IsKeyword(line[i..i + |KEYWORD|]) && !IsSpace(line[i])
    && (forall n :: i + |KEYWORD| <= n < j ==> IsSpace(line[n]))
    && (forall n :: j <= n < k ==> !IsSpace(line[n]))
    && (forall n :: k <= n < |line| ==> IsSpace(line[n]))
  }

  lemma DirectiveHasParts(line: string) returns (i: nat, j: nat, k: nat)
    requires DirectiveOf(line).Some?
    ensures DirectiveParts(line, i, j, k)
  {
    i := SkipSpaces(line, 0);
    j := SkipSpaces(line, i + |KEYWORD|);
    k := SkipWord(line, j);
    SkipSpacesStops(line, 0);
    SkipSpacesStops(line, i + |KEYWORD|);
    SkipWordStops(line, j);
    SkipSpacesStops(line, k);
    assert IsSpace(line[i + |KEYWORD|]);
  }

  lemma PartsMakeDirective(line: string, i: nat, j: nat, k: nat)
    requires DirectiveParts(line, i, j, k)
    ensures DirectiveOf(line) == Some(line[j..k])
  {
    hide IsKeyword;
    SkipSpacesIs(line, 0, i);
    SkipSpacesIs(line, i + |KEYWORD|, j);
    SkipWordIs(line, j, k);
    SkipSpacesIs(line, k, |line|);
  }

  lemma KeywordAround(word: string, at: nat, d: string)
    requires IsKeyword(word) && 0 < at && d != "" && at + |d| < |word| && word[at..at + |d|] == d
    ensures InnerPiece(d)
  {
    assert forall k :: 0 <= k < |d| ==> d[k] == word[at + k];
    assert InnerAt(d, at);
  }

  /** A line that is no directive when it ends in a delimiter does not become one when the next
      statement follows on the same line. */
  lemma DirectiveDoesNotGrow(p: string, d: string, r: string)
    requires p != "" && !IsSpace(p[|p| - 1]) && Usable(d) && (r == "" || !IsSpace(r[0]))
    requires DirectiveOf(p + d).None?
    ensures DirectiveOf(p + d + r).None?
  {
    hide IsSpace, IsKeyword, InnerPiece, DirectiveOf;
    var line, q, n := p + d + r, |p|, |KEYWORD|;
    if DirectiveOf(line).Some? {
      var i, j, k := DirectiveHasParts(line);
      assert line[q - 1] == p[q - 1];
      assert forall x :: q <= x < q + |d| ==> line[x] == d[x - q] && d[x - q] in d;
      assert q + |d| < |line| ==> line[q + |d|] == r[0];
      assert IsSpace(line[i + n]);
      var cut := p + d;
      assert forall x :: 0 <= x < |cut| ==> cut[x] == line[x];
      if q - 1 < i + n {
        var word := line[i..i + n];
        assert q + |d| < i + n;
        forall x | 0 <= x < |d| ensures word[q - i + x] == d[x] { assert line[q + x] == d[x]; }
        assert word[q - i..q - i + |d|] == d;
        KeywordAround(word, q - i, d);
      } else {
        assert IsSpace(line[j - 1]);
        assert cut[i..i + n] == line[i..i + n];
        assert k < |line| ==> IsSpace(line[k]);
        assert DirectiveParts(cut, i, j, |cut|);
        PartsMakeDirective(cut, i, j, |cut|);
      }
    }
  }

  // ---------------------------------------------------------------- reading a statement in context

  /** `script` shows `s` at `base`, then `d`, then what follows, which does not begin with a space; after
      a single dash it does not begin with a dash and a space either. */
  ghost predicate Context(script: string, base: nat, s: string, d: string) {
    && StartsWith(script, base, s + d)
    && var after := base + |s + d|;
       && (after < |script| ==> !IsSpace(script[after]))
       && (d == "-" && Holds(script, after, '-') ==> after + 1 < |script| && !IsSpace(script[after + 1]))
  }

  lemma InContext(script: string, base: nat, s: string, d: string, i: nat)
    requires Context(script, base, s, d)
    ensures i < |s + d| ==> base + i < |script| && script[base + i] == (s + d)[i]
  {
    if i < |s + d| { assert script[base..base + |s + d|][i] == script[base + i]; }
  }

  /** The states of the lexer reading `s` alone and in context: shifted by `base`.  Alone it starts
      at a line start, which is only harmless because `s` does not begin with a directive. */
  ghost predicate Shifted(alone: State, st: State, base: nat) {
    && st.index == base + alone.index && st.start == base + alone.start && st.delimiter == alone.delimiter
    && st.mode == alone.mode && st.hasSql == alone.hasSql
    && if alone.lineStart == 0 then st.lineStart <= base else st.lineStart == base + alone.lineStart
  }

  lemma {:induction false} LineEndShifts(script: string, base: nat, s: string, d: string, i: nat)
    requires Context(script, base, s, d) && i <= |s + d|
    ensures var e := LineEnd(s + d, i);
      if e < |s + d| then LineEnd(script, base + i) == base + e
      else LineEnd(script, base + i) >= base + |s + d|
    decreases |s + d| - i
  {
    InContext(script, base, s, d, i);
    if i < |s + d| && (s + d)[i] != '\n' { LineEndShifts(script, base, s, d, i + 1); }
  }

  /** What holds of the lexer reading `s + d` alone, before it reaches the delimiter. */
  ghost predicate Alone(s: string, d: string, st: State) {
    && st.start == 0 && st.delimiter == d && st.index <= |s|
    && (st.lineStart == 0 || (st.lineStart <= st.index && (s + d)[st.lineStart - 1] == '\n'))
  }

  /** The character after the one being read is the same alone and in context. */
  lemma SameAhead(script: string, base: nat, s: string, d: string, i: nat, c: char)
    requires Context(script, base, s, d) && i < |s + d|
    ensures Holds(s + d, i, c) <==> Holds(script, base + i, c)
    ensures base + i < |script| && script[base + i] == (s + d)[i]
  {
    InContext(script, base, s, d, i);
  }

  lemma SameSlice(script: string, base: nat, s: string, d: string, a: nat, b: nat)
    requires Context(script, base, s, d) && a <= b <= |s + d|
    ensures base + b <= |script| && script[base + a..base + b] == (s + d)[a..b]
  {
    forall k | a <= k < b ensures script[base + k] == (s + d)[k] { InContext(script, base, s, d, k); }
  }

  lemma SameDelimiterTest(script: string, base: nat, s: string, d: string, i: nat)
    requires Context(script, base, s, d) && i <= |s|
    ensures StartsWith(s + d, i, d) <==> StartsWith(script, base + i, d)
  {
    SameSlice(script, base, s, d, i, i + |d|);
  }

  /** A line of the statement is the same line in context, unless it holds the delimiter: then
      the next statement may follow on it. */
  lemma LineInContext(script: string, base: nat, s: string, d: string, i: nat) returns (r: string)
    requires Context(script, base, s, d) && i < |s| && base + i <= |script|
    ensures script[base + i..LineEnd(script, base + i)] == (s + d)[i..LineEnd(s + d, i)] + r
    ensures r != "" ==> (s + d)[i..LineEnd(s + d, i)] == s[i..] + d && !IsSpace(r[0])
  {
    hide IsSpace;
    var e, f := LineEnd(s + d, i), LineEnd(script, base + i);
    LineEndShifts(script, base, s, d, i);
    SameSlice(script, base, s, d, i, e);
    if e < |s + d| {
      r := "";
    } else {
      r := script[base + e..f];
      assert script[base + i..f] == script[base + i..base + e] + r;
      assert (s + d)[i..e] == s[i..] + d;
    }
  }

  lemma DirectiveShifts(script: string, base: nat, s: string, d: string, alone: State, st: State)
    requires Context(script, base, s, d) && Usable(d) && Strip(s) == s && Alone(s, d, alone) && alone.index < |s|
    requires Shifted(alone, st, base) && st.index <= |script| && DirectiveHere(s + d, alone).None?
    ensures DirectiveHere(script, st).None?
  {
    hide Context, Usable, DirectiveOf, Strip, IsSpace, LineEnd;
    if st.index == st.lineStart {
      var i := alone.index;
      var r := LineInContext(script, base, s, d, i);
      StrippedEnds(s);
      assert s[i..][|s[i..]| - 1] == s[|s| - 1];
      var line := (s + d)[i..LineEnd(s + d, i)];
      if r == "" {
        assert line + r == line;
      } else if alone.mode.Normal? || alone.mode.InLine? {
        DirectiveDoesNotGrow(s[i..], d, r);
      }
    }
  }

  lemma SameDash(script: string, base: nat, s: string, d: string, i: nat)
    requires Context(script, base, s, d) && i < |s|
    ensures i + 2 < |s + d| ==> (StartsDashComment(s + d, i) <==> StartsDashComment(script, base + i))
    ensures i + 2 >= |s + d| ==> StartsDashComment(s + d, i)
  {
    hide IsSpace;
    InContext(script, base, s, d, i + 2);
  }

  lemma NormalShifts(script: string, base: nat, s: string, d: string, alone: State, st: State)
    requires Context(script, base, s, d) && Usable(d) && Alone(s, d, alone) && alone.index < |s|
    requires Shifted(alone, st, base) && Within(script, st) && alone.mode.Normal?
    requires StepNormal(s + d, alone).pieces == [] && StepNormal(s + d, alone).next.index <= |s|
    ensures StepNormal(script, st).Move? && StepNormal(script, st).pieces == []
    ensures Shifted(StepNormal(s + d, alone).next, StepNormal(script, st).next, base)
    ensures Alone(s, d, StepNormal(s + d, alone).next)
  {
    hide Context, IsSpace, Usable, StartsWith, StartsDashComment;
    var i := alone.index;
    UsableNotEmpty(d);
    SameAhead(script, base, s, d, i, '\n');
    SameAhead(script, base, s, d, i + 1, '-');
    SameDash(script, base, s, d, i);
    SameAhead(script, base, s, d, i + 1, '*');
    if i + 2 < |s + d| { SameAhead(script, base, s, d, i + 2, '!'); }
    SameDelimiterTest(script, base, s, d, i);
    assert (s + d)[|s|] == d[0];
  }

  lemma ModeShifts(script: string, base: nat, s: string, d: string, alone: State, st: State)
    requires Context(script, base, s, d) && Usable(d) && Alone(s, d, alone) && alone.index < |s|
    requires Shifted(alone, st, base) && Within(script, st)
    requires StepMode(s + d, alone).pieces == [] && StepMode(s + d, alone).next.index <= |s|
    ensures StepMode(script, st).Move? && StepMode(script, st).pieces == []
    ensures Shifted(StepMode(s + d, alone).next, StepMode(script, st).next, base)
    ensures Alone(s, d, StepMode(s + d, alone).next)
  {
    hide Context, Usable, StepNormal;
    var i := alone.index;
    if alone.mode.Normal? {
      NormalShifts(script, base, s, d, alone, st);
    } else {
      UsableNotEmpty(d);
      SameAhead(script, base, s, d, i, '\n');
      SameAhead(script, base, s, d, i + 1, '/');
      SameAhead(script, base, s, d, i + 1, (s + d)[i]);
    }
  }

  lemma UsableNotEmpty(d: string)
    requires Usable(d)
    ensures d != ""
  {
  }

  /** Reading on from a shifted state emits nothing and stays shifted, up to the delimiter. */
  lemma {:induction false} ReachShifts(script: string, base: nat, s: string, d: string, alone: State, st: State)
    requires Context(script, base, s, d) && Usable(d) && Strip(s) == s && Alone(s, d, alone)
    requires Shifted(alone, st, base) && Within(script, st)
    requires Reach(s + d, alone, |s|).Some?
    ensures var end := Reach(s + d, alone, |s|).value;
      && Alone(s, d, end) && end.index == |s|
      && exists last :: Shifted(end, last, base) && Within(script, last) && Run(script, st) == Run(script, last)
    decreases |s| - alone.index
  {
    hide Context, Usable, StepMode, DirectiveOf, Strip;
    if alone.index < |s| {
      InContext(script, base, s, d, alone.index);
      DirectiveShifts(script, base, s, d, alone, st);
      var next1 := Step(s + d, alone).next;
      ReachStaysBelow(s + d, next1, |s|);
      ModeShifts(script, base, s, d, alone, st);
      var next := Step(script, st).next;
      assert Run(script, st) == Prepend([], Run(script, next)) == Run(script, next) by {
        PrependNothing(Run(script, next));
      }
      ReachShifts(script, base, s, d, next1, next);
    }
  }

  /** A step that emits nothing. */
  lemma QuietStep(script: string, st: State, next: State)
    requires Within(script, st) && st.index < |script| && Step(script, st) == Move(next, [])
    ensures Run(script, st) == Run(script, next)
  {
    hide Step;
    PrependNothing(Run(script, next));
  }

  lemma PrependNothing(r: Result<seq<Piece>>)
    ensures Prepend([], r) == r
  {
    if r.Success? { assert [] + r.value == r.value; }
  }

  lemma ReachStaysBelow(script: string, st: State, stop: nat)
    requires Within(script, st) && stop <= |script| && Reach(script, st, stop).Some?
    ensures st.index <= stop
  {
  }

  // ---------------------------------------------------------------- joined statements

  lemma NormalMeetsDelimiter(script: string, st: State)
    requires Within(script, st) && st.index < |script| && st.hasSql
    requires StartsWith(script, st.index, st.delimiter) && st.delimiter != ""
    requires script[st.index] !in {'#', '\'', '"', '`'}
    requires script[st.index] == '/' ==> !Holds(script, st.index + 1, '*')
    requires script[st.index] == '-' && Holds(script, st.index + 1, '-') ==> !StartsDashComment(script, st.index)
    ensures var after := st.index + |st.delimiter|;
      StepNormal(script, st) == Move(st.(index := after, start := after, hasSql := false),
                                     [Statement(script[st.start..st.index]), Separator(st.delimiter)])
  {
    hide IsSpace;
  }

  /** With the delimiter next, one step emits the statement. */
  lemma DelimiterEmits(script: string, base: nat, s: string, d: string, st: State)
    requires Context(script, base, s, d) && Usable(d) && s != "" && Within(script, st)
    requires st.start == base && st.index == base + |s| && st.delimiter == d && st.mode.Normal? && st.hasSql
    requires st.lineStart != st.index
    ensures Step(script, st)
         == Move(st.(index := base + |s + d|, start := base + |s + d|, hasSql := false), [Statement(s), Separator(d)])
  {
    hide IsSpace, InnerPiece, StepNormal, DirectiveOf;
    InContext(script, base, s, d, |s|);
    InContext(script, base, s, d, |s| + 1);
    InContext(script, base, s, d, |s| + 2);
    DashDelimiter(script, base, s, d);
    hide Context;
    SameSlice(script, base, s, d, 0, |s|);
    SameDelimiterTest(script, base, s, d, |s|);
    assert (s + d)[..|s|] == s && (s + d)[|s|..|s + d|] == d;
    assert (s + d)[|s|] == d[0];
    assert |d| > 1 ==> (s + d)[|s| + 1] == d[1];
    NormalMeetsDelimiter(script, st);
  }

  /** A delimiter that begins with a dash is not read as a comment. */
  lemma DashDelimiter(script: string, base: nat, s: string, d: string)
    requires Context(script, base, s, d) && Usable(d)
    ensures var i := base + |s|; d[0] == '-' && Holds(script, i + 1, '-') ==> !StartsDashComment(script, i)
  {
    hide IsSpace, InnerPiece;
    InContext(script, base, s, d, |s|);
    InContext(script, base, s, d, |s| + 1);
    InContext(script, base, s, d, |s| + 2);
    assert |d| > 1 ==> (s + d)[|s| + 1] == d[1];
    assert |d| > 2 ==> (s + d)[|s| + 2] == d[2] && d[2] in d;
    assert |d| == 1 && d[0] == '-' ==> d == "-";
    assert |d| == 2 && d[0] == '-' && d[1] == '-' ==> d == "--";
  }

  lemma LastCharNotNewline(s: string, d: string, st: State)
    requires Strip(s) == s && s != "" && Alone(s, d, st) && st.index == |s|
    ensures st.lineStart != st.index
  {
    StrippedEnds(s);
    assert (s + d)[|s| - 1] == s[|s| - 1];
  }

  /** One statement and its delimiter, read from any position with an empty buffer. */
  lemma StatementRuns(script: string, base: nat, s: string, d: string, st: State) returns (next: State)
    requires Context(script, base, s, d) && Usable(d) && WellFormed(s, d)
    requires st.lineStart <= base && st == State(base, st.lineStart, base, d, Normal, false) && Within(script, st)
    ensures next == State(base + |s + d|, next.lineStart, base + |s + d|, d, Normal, false) && Within(script, next)
    ensures next.lineStart <= next.index
    ensures Run(script, st) == Prepend([Statement(s), Separator(d)], Run(script, next))
  {
    hide Context, Usable, Strip, Step;
    var alone := State(0, 0, 0, d, Normal, false);
    ReachShifts(script, base, s, d, alone, st);
    var end := Reach(s + d, alone, |s|).value;
    var last :| Shifted(end, last, base) && Within(script, last) && Run(script, st) == Run(script, last);
    LastCharNotNewline(s, d, end);
    DelimiterEmits(script, base, s, d, last);
    InContext(script, base, s, d, |s|);
    UsableNotEmpty(d);
    next := Step(script, last).next;
  }

  lemma JoinStartsClean(statements: seq<string>, d: string)
    requires AllWellFormed(statements, d)
    ensures Join(statements, d) != "" ==> !IsSpace(Join(statements, d)[0])
  {
    if statements != [] {
      assert statements[0] in statements;
      StrippedEnds(statements[0]);
    }
  }

  /** With a single dash as delimiter, a statement that begins with a dash begins with a comment. */
  lemma DashStart(s: string)
    requires WellFormed(s, "-") && s[0] == '-'
    ensures |s| > 1 && !IsSpace(s[1])
  {
    hide IsSpace, DirectiveOf, Strip;
    var st := State(0, 0, 0, "-", Normal, false);
    assert (s + "-")[0] == '-' && (s + "-")[0..1] == "-";
    assert StartsWith(s + "-", 0, "-");
    NoSpaceDash();
    assert |s| > 1 ==> (s + "-")[1] == s[1];
    var o := Step(s + "-", st);
    assert o.Move? && o.pieces == [] && Reach(s + "-", o.next, |s|).Some?;
    assert o == StepNormal(s + "-", st);
  }

  lemma NoSpaceDash()
    ensures !IsSpace('-')
  {
  }

  lemma JoinContext(before: string, statements: seq<string>, d: string)
    requires AllWellFormed(statements, d) && statements != []
    ensures Context(before + Join(statements, d), |before|, statements[0], d)
    ensures AllWellFormed(statements[1..], d)
    ensures before + Join(statements, d) == before + (statements[0] + d) + Join(statements[1..], d)
  {
    hide IsSpace, WellFormed;
    var s, rest := statements[0], Join(statements[1..], d);
    if d == "-" { JoinAfterDash(statements[1..], d); }
    var script := before + Join(statements, d);
    assert script == before + (s + d) + rest;
    JoinStartsClean(statements[1..], d);
    assert script[|before|..|before| + |s + d|] == s + d;
    assert |before| + |s + d| < |script| ==> script[|before| + |s + d|] == rest[0];
    assert |before| + |s + d| + 1 < |script| ==> script[|before| + |s + d| + 1] == rest[1];
  }

  lemma JoinAfterDash(statements: seq<string>, d: string)
    requires AllWellFormed(statements, d) && d == "-"
    ensures Holds(Join(statements, d), 0, '-') ==> |Join(statements, d)| > 1 && !IsSpace(Join(statements, d)[1])
  {
    hide IsSpace, WellFormed;
    if statements != [] {
      assert statements[0] in statements;
      WellFormedIsStripped(statements[0], d);
      if statements[0][0] == '-' { DashStart(statements[0]); }
    }
  }

  lemma {:induction false} JoinedRuns(before: string, statements: seq<string>, d: string, st: State)
    requires Usable(d) && AllWellFormed(statements, d)
    requires st.lineStart <= |before| && st == State(|before|, st.lineStart, |before|, d, Normal, false)
    ensures var r := Run(before + Join(statements, d), st);
      r.Success? && Statements(r.value) == statements
    decreases |statements|
  {
    hide Usable, WellFormed, Step, Context, Strip;
    var script := before + Join(statements, d);
    if statements == [] {
      assert script == before;
    } else {
      JoinContext(before, statements, d);
      assert statements[0] in statements;
      var s := statements[0];
      var next := StatementRuns(script, |before|, s, d, st);
      JoinedRuns(before + (s + d), statements[1..], d, next);
      WellFormedIsStripped(s, d);
      StatementsOfPair(s, d, Run(script, next).value);
      assert statements == [s] + statements[1..];
    }
  }

  lemma WellFormedIsStripped(s: string, d: string)
    requires WellFormed(s, d)
    ensures Strip(s) == s && s != ""
  {
  }

  lemma StatementsOfPair(s: string, d: string, rest: seq<Piece>)
    ensures Statements([Statement(s), Separator(d)] + rest) == [Strip(s)] + Statements(rest)
  {
    hide Strip;
    assert ([Statement(s), Separator(d)] + rest)[1..] == [Separator(d)] + rest;
    assert ([Separator(d)] + rest)[1..] == rest;
  }

  lemma SemicolonIsUsable()
    ensures Usable(";")
  {
    forall i: nat | i < |KEYWORD| ensures !InnerAt(";", i) {
      assert i + 0 < |KEYWORD| ==> !SameLetter(';', KEYWORD[i + 0]);
    }
  }

  /** Splitting the statements joined with semicolons gives them back. */
  lemma SplitUndoesJoin(statements: seq<string>)
    requires AllWellFormed(statements, ";")
    ensures Split(Join(statements, ";")) == Success(statements)
  {
    hide WellFormed;
    SemicolonIsUsable();
    assert "" + Join(statements, ";") == Join(statements, ";");
    JoinedRuns("", statements, ";", INITIAL);
  }

  lemma {:induction false} LineEndIs(script: string, i: nat, end: nat)
    requires i <= end < |script| && script[end] == '\n' && forall k :: i <= k < end ==> script[k] != '\n'
    ensures LineEnd(script, i) == end
    decreases end - i
  {
    if i < end { LineEndIs(script, i + 1, end); }
  }

  lemma WordLine(word: string, d: string)
    requires IsKeyword(word) && !IsSpace(word[0]) && d != "" && forall c :: c in d ==> !IsSpace(c)
    ensures DirectiveOf(word + [' '] + d) == Some(d)
  {
    hide IsKeyword, DirectiveOf;
    var line, n := word + [' '] + d, |word|;
    assert n == |KEYWORD| by { KeywordLength(word); }
    assert line[0..n] == word && line[n] == ' ' && line[n + 1..|line|] == d;
    assert forall k :: n < k < |line| ==> line[k] == d[k - n - 1] && d[k - n - 1] in d;
    assert DirectiveParts(line, 0, n + 1, |line|);
    PartsMakeDirective(line, 0, n + 1, |line|);
  }

  lemma KeywordLength(word: string)
    requires IsKeyword(word)
    ensures |word| == |KEYWORD|
  {
  }

  lemma KeywordLine(d: string)
    requires Nonblank(d)
    ensures DirectiveOf(KEYWORD + " " + d) == Some(d)
    ensures forall c :: c in KEYWORD + " " + d ==> c != '\n'
  {
    assert IsKeyword(KEYWORD) && !IsSpace(KEYWORD[0]);
    WordLine(KEYWORD, d);
    assert forall c :: c in KEYWORD ==> c != '\n';
    assert forall c :: c in d ==> c != '\n';
  }

  /** The first line sets the delimiter and the rest is read with it. */
  lemma HeaderRuns(d: string, body: string)
    requires Nonblank(d)
    ensures var header := KEYWORD + " " + d + "\n";
      Run(header + body, INITIAL)
        == Prepend([Blank(""), Directive(header)],
                   Run(header + body, State(|header|, |header|, |header|, d, Normal, false)))
  {
    hide Nonblank, IsSpace, DirectiveOf;
    var line := KEYWORD + " " + d;
    var header := line + "\n";
    var script := header + body;
    KeywordLine(d);
    assert script[..|line|] == line && script[|line|] == '\n' && script[..|header|] == header;
    assert forall k :: 0 <= k < |line| ==> script[k] == line[k] && line[k] in line;
    LineEndIs(script, 0, |line|);
    assert script[0..0] == "";
  }

  lemma StatementsOfHeader(header: string, rest: seq<Piece>)
    ensures Statements([Blank(""), Directive(header)] + rest) == Statements(rest)
  {
    assert ([Blank(""), Directive(header)] + rest)[1..] == [Directive(header)] + rest;
    assert ([Directive(header)] + rest)[1..] == rest;
    assert [] + Statements(rest) == Statements(rest);
  }

  /** With any usable delimiter, set by a DELIMITER line, splitting undoes joining as well. */
  lemma SplitUndoesJoinWithDelimiter(statements: seq<string>, d: string)
    requires Usable(d) && AllWellFormed(statements, d)
    ensures Split(KEYWORD + " " + d + "\n" + Join(statements, d)) == Success(statements)
  {
    hide WellFormed, Step, Strip, InnerPiece;
    var header := KEYWORD + " " + d + "\n";
    var st := State(|header|, |header|, |header|, d, Normal, false);
    HeaderRuns(d, Join(statements, d));
    JoinedRuns(header, statements, d, st);
    StatementsOfHeader(header, Run(header + Join(statements, d), st).value);
  }

  // ---------------------------------------------------------------- which statements are well formed

  /** One line of SQL without quotation, comment, division or the first delimiter character. */
  predicate Plain(s: string, d: string) {
    && Strip(s) == s && s != "" && d != ""
    && (forall c :: c in s ==> c !in {'\n', '-', '#', '/', '\'', '"', '`'} && c != d[0])
    && DirectiveOf((s + d)[0..LineEnd(s + d, 0)]).None?
  }

  lemma FirstCharDiffers(script: string, i: nat, d: string)
    requires i < |script| && d != "" && script[i] != d[0]
    ensures !StartsWith(script, i, d)
  {
    if i + |d| <= |script| { assert script[i..i + |d|][0] == script[i]; }
  }

  lemma {:induction false} PlainReaches(s: string, d: string, st: State)
    requires Plain(s, d) && st.index <= |s| && Within(s + d, st) && st.delimiter == d && st.mode.Normal?
    requires st.lineStart == 0 && (st.index > 0 ==> st.hasSql)
    ensures Reach(s + d, st, |s|) == Some(st.(index := |s|, hasSql := true))
    decreases |s| - st.index
  {
    hide DirectiveOf, IsSpace, Strip, LineEnd;
    if st.index < |s| {
      assert (s + d)[st.index] == s[st.index] && s[st.index] in s;
      FirstCharDiffers(s + d, st.index, d);
      StrippedEnds(s);
      PlainReaches(s, d, st.(index := st.index + 1, hasSql := true));
    }
  }

  /** Plain statements are well formed, so the round trip is not about lexer states only. */
  lemma PlainIsWellFormed(s: string, d: string)
    requires Plain(s, d)
    ensures WellFormed(s, d)
  {
    hide DirectiveOf, IsSpace, Strip;
    PlainReaches(s, d, State(0, 0, 0, d, Normal, false));
  }

  // ---------------------------------------------------------------- why the delimiter must be no inner piece

  lemma {:induction false} NoNewline(script: string, i: nat)
    requires i <= |script| && forall k :: i <= k < |script| ==> script[k] != '\n'
    ensures LineEnd(script, i) == |script|
    decreases |script| - i
  {
    if i < |script| { NoNewline(script, i + 1); }
  }

  lemma ShortIsPlain(s: string, d: string)
    requires |s + d| <= |KEYWORD| && s != "" && d != "" && Strip(s) == s
    requires forall c :: c in s ==> c !in {'\n', '-', '#', '/', '\'', '"', '`'} && c != d[0]
    ensures WellFormed(s, d)
  {
    hide Strip, WellFormed;
    PlainIsWellFormed(s, d);
  }

  /** After the header, a lone directive line without newline ends the script. */
  lemma DirectiveOnly(header: string, d: string, line: string, word: string)
    requires DirectiveOf(line) == Some(word) && line != "" && forall c :: c in line ==> c != '\n'
    ensures var st := State(|header|, |header|, |header|, d, Normal, false);
      Run(header + line, st) == Success([Blank(""), Directive(line), Blank("")])
  {
    hide DirectiveOf, StepMode, IsSpace;
    var script := header + line;
    var st := State(|header|, |header|, |header|, d, Normal, false);
    assert script[|header|..|script|] == line && script[|header|..|header|] == "" && script[|script|..|script|] == "";
    assert forall k :: |header| <= k < |script| ==> script[k] == line[k - |header|] && line[k - |header|] in line;
    NoNewline(script, |header|);
    var next := State(|script|, |script|, |script|, word, Normal, false);
    assert Step(script, st) == Move(next, [Blank(""), Directive(line)]);
    assert Run(script, next) == Success([Blank("")]);
    assert [Blank(""), Directive(line)] + [Blank("")] == [Blank(""), Directive(line), Blank("")];
  }

  lemma TrimmedPair()
    ensures Strip("DE") == "DE" && Strip("TER x") == "TER x"
  {
  }

  /** Two well-formed statements and a delimiter made of letters of the word DELIMITER: joined they
      read as a directive, and both are lost. */
  lemma KeywordDelimiterLosesStatements()
    ensures var statements, d := ["DE", "TER x"], "LIMI";
      && AllWellFormed(statements, d)
      && Split(KEYWORD + " " + d + "\n" + Join(statements, d)) == Success([])
  {
    hide Step, Strip, WellFormed, DirectiveOf, Run, Statements;
    var d := "LIMI";
    TrimmedPair();
    ShortIsPlain("DE", d);
    ShortIsPlain("TER x", d);
    var header, body := KEYWORD + " " + d + "\n", KEYWORD + " " + "xLIMI";
    JoinedPair(d);
    HeaderRuns(d, body);
    KeywordLine("xLIMI");
    DirectiveOnly(header, d, body, "xLIMI");
    StatementsOfHeader(header, [Blank(""), Directive(body), Blank("")]);
    StatementsOfHeader(body, [Blank("")]);
    BlankHasNone();
    assert [Blank(""), Directive(body)] + [Blank("")] == [Blank(""), Directive(body), Blank("")];
  }

  lemma JoinedPair(d: string)
    requires d == "LIMI"
    ensures Join(["DE", "TER x"], d) == KEYWORD + " " + "xLIMI"
  {
    assert ["DE", "TER x"][1..] == ["TER x"];
    assert Join(["TER x"], d) == "TER x" + d + "";
  }

  lemma BlankHasNone()
    ensures Statements([Blank("")]) == []
  {
  }
}
