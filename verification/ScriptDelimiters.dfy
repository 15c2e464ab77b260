/**
Which delimiters the round trip works for: exactly those that no other branch of the lexer takes
apart and that are no inner piece of the word DELIMITER.
*/
module ScriptDelimiters {
  import opened Wrappers
  import opened Text
  import opened ScriptSplitter
  import opened ScriptRoundTrip

  /** Every list of well-formed statements comes back when it is joined with `d`. */
  ghost predicate RoundTrips(d: string) {
    forall statements :: AllWellFormed(statements, d) ==>
      Split(KEYWORD + " " + d + "\n" + Join(statements, d)) == Success(statements)
  }

  /** After the header that sets `d`. */
  function Begin(header: string, d: string): State { State(|header|, |header|, |header|, d, Normal, false) }

  // ---------------------------------------------------------------- a delimiter that is never seen

  /** With SQL in the buffer and too little left for a delimiter, the script cannot end well. */
  lemma {:induction false} TooShortToEnd(script: string, st: State)
    requires Within(script, st) && st.hasSql && |script| - st.index < |st.delimiter|
    ensures Run(script, st).Failure?
    decreases |script| - st.index
  {
    hide DirectiveOf, IsSpace;
    if st.index < |script| && DirectiveHere(script, st).None? {
      var o := StepMode(script, st);
      assert o.Move? && o.pieces == [] && o.next.hasSql && o.next.delimiter == st.delimiter;
      TooShortToEnd(script, o.next);
    }
  }

  /** A block comment without a star is never closed. */
  lemma {:induction false} NeverCloses(script: string, st: State)
    requires Within(script, st) && st.mode.InBlock? && forall k :: st.index <= k < |script| ==> script[k] != '*'
    ensures Run(script, st).Failure?
    decreases |script| - st.index
  {
    hide DirectiveOf, IsSpace;
    if st.index < |script| {
      var o := StepMode(script, st);
      assert DirectiveHere(script, st).None? && o.Move? && o.pieces == [] && o.next.mode.InBlock?;
      NeverCloses(script, o.next);
    }
  }

  lemma NoDirective(line: string)
    requires line != "" && !IsSpace(line[0]) && !SameLetter(line[0], 'D')
    ensures DirectiveOf(line).None?
  {
    SkipSpacesIs(line, 0, 0);
    if 0 + |KEYWORD| < |line| { assert line[0..|KEYWORD|][0] == line[0]; }
  }

  /** The letter x as the first statement: one step, and the delimiter is next. */
  lemma FirstLetter(header: string, d: string, rest: string)
    requires Nonblank(d) && d[0] != 'x'
    ensures var script, st := header + "x" + d + rest, Begin(header, d);
      Run(script, st) == Run(script, st.(index := |header| + 1, hasSql := true))
  {
    hide DirectiveOf, IsSpace;
    var script, st := header + "x" + d + rest, Begin(header, d);
    var line := script[st.index..LineEnd(script, st.index)];
    assert script[|header|] == 'x';
    LetterX();
    assert LineEnd(script, |header|) == LineEnd(script, |header| + 1);
    assert line[0] == 'x';
    NoDirective(line);
    FirstCharDiffers(script, |header|, d);
    var next := st.(index := |header| + 1, hasSql := true);
    QuietStep(script, st, next);
  }

  lemma LetterX()
    ensures !IsSpace('x') && !SameLetter('x', 'D') && Strip("x") == "x" && Strip("*b") == "*b"
    ensures Nonblank("/")
  {
  }

  lemma LetterIsWellFormed(d: string)
    requires Nonblank(d) && d[0] != 'x'
    ensures WellFormed("x", d)
  {
    hide DirectiveOf, IsSpace, Strip, WellFormed;
    LetterX();
    assert ("x" + d)[0] == 'x' && LineEnd("x" + d, 0) == LineEnd("x" + d, 1);
    NoDirective(("x" + d)[0..LineEnd("x" + d, 0)]);
    assert Plain("x", d);
    PlainIsWellFormed("x", d);
  }

  /** The branches of the lexer that come before its delimiter test. */
  predicate TakenApart(d: string)
    requires d != ""
  {
    d[0] in {'#', '\'', '"', '`'} || d == "--" || (|d| > 1 && d[0] == '/' && d[1] == '*')
  }

  lemma TakenApartFails(d: string)
    requires Nonblank(d) && TakenApart(d)
    ensures !RoundTrips(d)
  {
    hide DirectiveOf, IsSpace, Strip, WellFormed, Run, Statements;
    var header := KEYWORD + " " + d + "\n";
    var script, st := header + "x" + d + "", Begin(header, d);
    LetterIsWellFormed(d);
    assert AllWellFormed(["x"], d);
    assert ["x"][1..] == [] && Join(["x"], d) == "x" + d + "";
    assert header + Join(["x"], d) == script;
    HeaderRuns(d, Join(["x"], d));
    FirstLetter(header, d, "");
    var at := st.(index := |header| + 1, hasSql := true);
    assert script[at.index] == d[0] && (|d| > 1 ==> script[at.index + 1] == d[1]);
    TakenStep(script, at, d);
  }

  lemma TakenStep(script: string, at: State, d: string)
    requires Within(script, at) && at.index + |d| == |script| && script[at.index..] == d && d != "" && TakenApart(d)
    requires at.hasSql && at.delimiter == d && at.mode.Normal? && at.lineStart != at.index
    ensures Run(script, at).Failure?
  {
    hide IsSpace, Run;
    assert script[at.index] == d[0] && (|d| > 1 ==> script[at.index + 1] == d[1]);
    var o := StepNormal(script, at);
    assert o.Move? && o.pieces == [] && o.next.hasSql && o.next.delimiter == d;
    QuietStep(script, at, o.next);
    TooShortToEnd(script, o.next);
  }

  /** A slash followed by a statement that begins with a star opens a comment. */
  lemma SlashFails()
    ensures !RoundTrips("/")
  {
    hide DirectiveOf, IsSpace, Strip, WellFormed, Run, Statements;
    var d, statements := "/", ["x", "*b"];
    var header := KEYWORD + " " + d + "\n";
    var script, st := header + "x" + d + "*b/", Begin(header, d);
    LetterX();
    LetterIsWellFormed(d);
    ShortIsPlain("*b", d);
    assert AllWellFormed(statements, d);
    SlashJoined();
    assert header + Join(statements, d) == script;
    HeaderRuns(d, Join(statements, d));
    FirstLetter(header, d, "*b/");
    var at := st.(index := |header| + 1, hasSql := true);
    assert script[at.index] == '/' && script[at.index + 1] == '*' && script[at.index + 2] == 'b'
      && script[at.index + 3] == '/';
    SlashStep(script, at);
  }

  lemma SlashJoined()
    ensures Join(["x", "*b"], "/") == "x" + "/" + "*b/"
  {
    assert ["x", "*b"][1..] == ["*b"];
    assert Join(["*b"], "/") == "*b" + "/" + "";
  }

  lemma SlashStep(script: string, at: State)
    requires Within(script, at) && at.index + 4 == |script| && at.mode.Normal? && at.lineStart != at.index
    requires script[at.index] == '/' && script[at.index + 1] == '*' && script[at.index + 2] == 'b'
      && script[at.index + 3] == '/'
    ensures Run(script, at).Failure?
  {
    hide IsSpace, DirectiveOf, StartsWith, Run, StartsDashComment;
    var next := at.(index := at.index + 2, mode := InBlock);
    assert Step(script, at) == Move(next, []);
    QuietStep(script, at, next);
    NeverCloses(script, next);
  }

  // ---------------------------------------------------------------- inner pieces of DELIMITER

  /** A letter of the word, in the case that is not `c`. */
  function Letter(k: nat, c: char): (letter: char)
    requires k < |KEYWORD|
    ensures letter != c && SameLetter(letter, KEYWORD[k]) && letter !in {'\n', '-', '#', '/', '\'', '"', '`', ' '}
    ensures !IsSpace(letter)
  {
    if KEYWORD[k] == c then (KEYWORD[k] as int + 32) as char else KEYWORD[k]
  }

  /** The letters `from` to `to` of the word, none of them `c`. */
  function Letters(from: nat, to: nat, c: char): (text: string)
    requires from <= to <= |KEYWORD|
    ensures |text| == to - from && forall k :: 0 <= k < |text| ==> text[k] == Letter(from + k, c)
  {
    seq(to - from, k requires 0 <= k < to - from => Letter(from + k, c))
  }

  lemma {:induction false} TrimmedEnds(s: string)
    requires s != "" && !IsSpace(s[0]) && !IsSpace(s[|s| - 1])
    ensures Strip(s) == s
  {
  }

  /** The pieces before and after `d` are statements of their own. */
  lemma OuterPiecesAreWellFormed(d: string, i: nat)
    requires Nonblank(d) && i < |KEYWORD| && InnerAt(d, i)
    ensures WellFormed(Letters(0, i, d[0]), d) && WellFormed(Letters(i + |d|, |KEYWORD|, d[0]) + " x", d)
  {
    hide WellFormed, Strip, DirectiveOf, IsSpace;
    var a, b := Letters(0, i, d[0]), Letters(i + |d|, |KEYWORD|, d[0]) + " x";
    assert SameLetter(d[0], KEYWORD[i + 0]);
    LetterX();
    NotX(d[0], i);
    TrimmedEnds(a);
    assert b[|b| - 1] == 'x';
    TrimmedEnds(b);
    ShortIsPlain(a, d);
    forall c | c in b ensures c !in {'\n', '-', '#', '/', '\'', '"', '`'} && c != d[0] {
      var k :| 0 <= k < |b| && b[k] == c;
      assert k < |KEYWORD| - i - |d| ==> c == Letter(i + |d| + k, d[0]);
    }
    SpacedIsNoDirective(b, d, |KEYWORD| - i - |d|);
    assert Plain(b, d);
    PlainIsWellFormed(b, d);
  }

  lemma NotX(c: char, k: nat)
    requires k < |KEYWORD| && SameLetter(c, KEYWORD[k])
    ensures c != 'x' && c != ' '
  {
  }

  lemma SpacedIsNoDirective(b: string, d: string, m: nat)
    requires 0 < m < |KEYWORD| && m + 1 < |b| && b[m] == ' ' && !IsSpace(b[0])
    requires forall c :: c in b + d ==> c != '\n'
    ensures DirectiveOf((b + d)[0..LineEnd(b + d, 0)]).None?
  {
    var line := b + d;
    assert forall k :: 0 <= k < |line| ==> line[k] in b + d;
    NoNewline(line, 0);
    assert line[0..|line|] == line && line[0] == b[0] && line[m] == b[m];
    SkipSpacesIs(line, 0, 0);
    if 0 + |KEYWORD| < |line| { assert line[0..|KEYWORD|][m] == ' ' && !SameLetter(' ', KEYWORD[m]); }
  }

  lemma InnerPieceFails(d: string, i: nat)
    requires Nonblank(d) && i < |KEYWORD| && InnerAt(d, i)
    ensures !RoundTrips(d)
  {
    hide WellFormed, Strip, DirectiveOf, IsSpace, Run, Statements, IsKeyword, Letter;
    var a, z := Letters(0, i, d[0]), Letters(i + |d|, |KEYWORD|, d[0]);
    var statements := [a, z + " x"];
    OuterPiecesAreWellFormed(d, i);
    assert AllWellFormed(statements, d);
    var word := a + d + z;
    SpelledWord(d, i);
    var header, line := KEYWORD + " " + d + "\n", word + [' '] + ("x" + d);
    assert statements[1..] == [z + " x"] && Join([z + " x"], d) == z + " x" + d + ""
      && Join(statements, d) == a + d + (z + " x" + d + "");
    assert Join(statements, d) == line;
    HeaderRuns(d, line);
    NoNewlineInWord(d, i);
    WordLine(word, "x" + d);
    DirectiveOnly(header, d, line, "x" + d);
    StatementsOfHeader(header, [Blank(""), Directive(line), Blank("")]);
    StatementsOfHeader(line, [Blank("")]);
    BlankHasNone();
    assert [Blank(""), Directive(line)] + [Blank("")] == [Blank(""), Directive(line), Blank("")];
  }

  lemma SpelledWord(d: string, i: nat)
    requires Nonblank(d) && i < |KEYWORD| && InnerAt(d, i)
    ensures var word := Letters(0, i, d[0]) + d + Letters(i + |d|, |KEYWORD|, d[0]);
      IsKeyword(word) && !IsSpace(word[0])
  {
    hide IsSpace;
    var a, z := Letters(0, i, d[0]), Letters(i + |d|, |KEYWORD|, d[0]);
    var word := a + d + z;
    forall k | 0 <= k < |KEYWORD| ensures SameLetter(word[k], KEYWORD[k]) {
      if k < i {
        assert word[k] == Letter(k, d[0]);
      } else if k < i + |d| {
        assert word[k] == d[k - i] && SameLetter(d[k - i], KEYWORD[i + (k - i)]);
      } else {
        assert word[k] == z[k - i - |d|] == Letter(k, d[0]);
      }
    }
  }

  lemma NoNewlineInWord(d: string, i: nat)
    requires Nonblank(d) && i < |KEYWORD| && InnerAt(d, i)
    ensures '\n' !in Letters(0, i, d[0]) + d + Letters(i + |d|, |KEYWORD|, d[0]) + [' '] + ("x" + d)
    ensures forall c :: c in "x" + d ==> !IsSpace(c)
  {
    LetterX();
  }

  /** With a nonblank delimiter, every list of well-formed statements survives joining and splitting
      exactly when the delimiter is usable. */
  lemma RoundTripsIffUsable(d: string)
    requires Nonblank(d)
    ensures RoundTrips(d) <==> Usable(d)
  {
    hide WellFormed, Strip, DirectiveOf, IsSpace, Split, Join, InnerAt;
    if Usable(d) {
      forall statements | AllWellFormed(statements, d)
        ensures Split(KEYWORD + " " + d + "\n" + Join(statements, d)) == Success(statements)
      {
        SplitUndoesJoinWithDelimiter(statements, d);
      }
    } else if InnerPiece(d) {
      var i: nat :| i < |KEYWORD| && InnerAt(d, i);
      InnerPieceFails(d, i);
    } else if d == "/" {
      SlashFails();
    } else {
      TakenApartFails(d);
    }
  }
}
