/**
What the script lexer promises about every script it accepts: the pieces tile the script in
order, a blank piece holds white space and plain comments only, a statement piece holds SQL, and
a separator is the delimiter in force.
*/
module ScriptPieces {
  import opened Text
  import opened ScriptSplitter

  // ---------------------------------------------------------------- trivia, declaratively

  /** Up to its end of line; two dashes open a comment only before white space or at the very end. */
  predicate LineComment(t: string) {
    && t != "" && (t[0] == '#' || (2 <= |t| && t[0] == t[1] == '-' && (|t| == 2 || IsSpace(t[2]))))
    && forall i :: 0 <= i < |t| - 1 ==> t[i] != '\n'
  }

  /** Up to the first closing mark; a comment that opens with an exclamation mark is SQL. */
  predicate BlockComment(t: string) {
    && 4 <= |t| && t[0] == '/' && t[1] == '*' && t[2] != '!' && t[|t| - 2] == '*' && t[|t| - 1] == '/'
    && forall i :: 2 <= i < |t| - 2 ==> !(t[i] == '*' && t[i + 1] == '/')
  }

  predicate Trivia(t: string) {
    (|t| == 1 && IsSpace(t[0])) || LineComment(t) || BlockComment(t)
  }

  function Concat(items: seq<string>): string {
    if items == [] then "" else Concat(items[..|items| - 1]) + items[|items| - 1]
  }

  /** White space and plain comments, nothing else. */
  ghost predicate Inert(text: string) {
    exists items :: Concat(items) == text && forall t :: t in items ==> Trivia(t)
  }

  lemma InertEmpty()
    ensures Inert("")
  {
    assert Concat([]) == "";
  }

  lemma InertNext(text: string, t: string)
    requires Inert(text) && Trivia(t)
    ensures Inert(text + t)
  {
    hide Trivia;
    var items :| Concat(items) == text && forall t :: t in items ==> Trivia(t);
    assert (items + [t])[..|items|] == items;
    assert Concat(items + [t]) == text + t;
  }

  /** At `i`, outside quotations and comments, stands something other than trivia. */
  predicate SqlAt(script: string, i: nat) {
    && i < |script| && !IsSpace(script[i]) && script[i] != '#'
    && !(script[i] == '-' && Holds(script, i + 1, '-') && StartsDashComment(script, i))
    && !(script[i] == '/' && Holds(script, i + 1, '*') && !Holds(script, i + 2, '!'))
  }

  // ---------------------------------------------------------------- what pieces cover

  ghost predicate PieceSound(script: string, pos: nat, end: nat, delimiter: string, piece: Piece)
    requires pos <= end <= |script|
  {
    match piece
    case Statement(_) => exists cut :: pos <= cut < end && Inert(script[pos..cut]) && SqlAt(script, cut)
    case Blank(_) => Inert(script[pos..end])
    case Separator(text) => text == delimiter && text != ""
    case Directive(_) =>
      pos < |script| && end == AfterLine(script, pos) && DirectiveOf(script[pos..LineEnd(script, pos)]).Some?
  }

  function DelimiterAfter(script: string, pos: nat, delimiter: string, piece: Piece): string
    requires pos <= |script|
  {
    if !piece.Directive? then delimiter else
      var d := DirectiveOf(script[pos..LineEnd(script, pos)]);
      if d.Some? then d.value else delimiter
  }

  /** From `pos` to the end, the pieces are the script cut into ordered, adjacent, sound parts. */
  ghost predicate Covers(script: string, pos: nat, delimiter: string, pieces: seq<Piece>)
    requires pos <= |script|
    decreases |pieces|
  {
    if pieces == [] then pos == |script|
    else
      var end := pos + |pieces[0].text|;
      && end <= |script| && pieces[0].text == script[pos..end]
      && PieceSound(script, pos, end, delimiter, pieces[0])
      && Covers(script, end, DelimiterAfter(script, pos, delimiter, pieces[0]), pieces[1..])
  }

  // ---------------------------------------------------------------- the invariant of a step

  ghost predicate LineOpen(script: string, from: nat, index: nat) {
    && from < index <= |script|
    && (script[from] == '#' ||
        (from + 2 <= index && script[from] == script[from + 1] == '-' && StartsDashComment(script, from)))
    && forall i :: from <= i < index ==> script[i] != '\n'
  }

  ghost predicate BlockOpen(script: string, from: nat, index: nat) {
    && from + 2 <= index <= |script| && script[from] == '/' && script[from + 1] == '*' && !Holds(script, from + 2, '!')
    && forall i :: from + 2 <= i < index ==> !(script[i] == '*' && Holds(script, i + 1, '/'))
  }

  /** What the buffer holds when no SQL was seen in it. */
  ghost predicate BlankSoFar(script: string, st: State)
    requires Within(script, st)
  {
    match st.mode
    case Normal => Inert(script[st.start..st.index])
    case Quoted(_) => false
    case InLine =>
      exists cut :: st.start <= cut < st.index && Inert(script[st.start..cut]) && LineOpen(script, cut, st.index)
    case InBlock =>
      exists cut :: st.start <= cut < st.index && Inert(script[st.start..cut]) && BlockOpen(script, cut, st.index)
  }

  ghost predicate SqlSoFar(script: string, st: State)
    requires Within(script, st)
  {
    exists cut :: st.start <= cut < st.index && Inert(script[st.start..cut]) && SqlAt(script, cut)
  }

  ghost predicate Lexed(script: string, st: State) {
    && Within(script, st) && st.delimiter != ""
    && if st.hasSql then SqlSoFar(script, st) else BlankSoFar(script, st)
  }

  lemma Slices(script: string, a: nat, b: nat, c: nat)
    requires a <= b <= c <= |script|
    ensures script[a..c] == script[a..b] + script[b..c]
  {
  }

  lemma LineCloses(script: string, a: nat, from: nat, index: nat)
    requires a <= from <= |script| && Inert(script[a..from]) && LineOpen(script, from, index)
    ensures Inert(script[a..index])
    ensures index < |script| && script[index] == '\n' ==> Inert(script[a..index + 1])
  {
    hide Inert;
    Slices(script, a, from, index);
    assert LineComment(script[from..index]);
    InertNext(script[a..from], script[from..index]);
    if index < |script| && script[index] == '\n' {
      Slices(script, a, from, index + 1);
      assert LineComment(script[from..index + 1]);
      InertNext(script[a..from], script[from..index + 1]);
    }
  }

  lemma BlockCloses(script: string, a: nat, from: nat, index: nat)
    requires a <= from <= |script| && Inert(script[a..from]) && BlockOpen(script, from, index)
    requires index + 2 <= |script| && script[index] == '*' && script[index + 1] == '/'
    ensures Inert(script[a..index + 2])
  {
    hide Inert, BlockComment, LineComment;
    Slices(script, a, from, index + 2);
    BlockText(script, from, index);
    InertNext(script[a..from], script[from..index + 2]);
  }

  lemma BlockText(script: string, from: nat, index: nat)
    requires BlockOpen(script, from, index)
    requires index + 2 <= |script| && script[index] == '*' && script[index + 1] == '/'
    ensures BlockComment(script[from..index + 2])
  {
    var t := script[from..index + 2];
    assert t[2] == script[from + 2];
    forall i | 2 <= i < |t| - 2 ensures !(t[i] == '*' && t[i + 1] == '/') {
      assert t[i] == script[from + i] && t[i + 1] == script[from + i + 1];
    }
  }

  lemma SpaceNext(script: string, a: nat, i: nat)
    requires a <= i < |script| && Inert(script[a..i]) && IsSpace(script[i])
    ensures Inert(script[a..i + 1])
  {
    hide Inert;
    assert script[a..i + 1] == script[a..i] + [script[i]];
    InertNext(script[a..i], [script[i]]);
  }

  // ---------------------------------------------------------------- every step keeps it

  lemma LineKeeps(script: string, st: State)
    requires Lexed(script, st) && st.index < |script| && st.mode.InLine? && !st.hasSql
    ensures Lexed(script, StepLine(script, st).next)
  {
    hide Inert, SqlSoFar;
    var cut :| st.start <= cut < st.index && Inert(script[st.start..cut]) && LineOpen(script, cut, st.index);
    if script[st.index] == '\n' {
      LineCloses(script, st.start, cut, st.index);
    } else {
      assert LineOpen(script, cut, st.index + 1);
    }
  }

  lemma BlockKeeps(script: string, st: State)
    requires Lexed(script, st) && st.index < |script| && st.mode.InBlock? && !st.hasSql
    ensures Lexed(script, StepBlock(script, st).next)
  {
    hide Inert, SqlSoFar;
    var cut :| st.start <= cut < st.index && Inert(script[st.start..cut]) && BlockOpen(script, cut, st.index);
    if script[st.index] == '*' && Holds(script, st.index + 1, '/') {
      BlockCloses(script, st.start, cut, st.index);
    } else {
      assert BlockOpen(script, cut, st.index + 1);
    }
  }

  lemma NormalKeeps(script: string, st: State)
    requires Lexed(script, st) && st.index < |script| && st.mode.Normal? && !st.hasSql
    ensures Lexed(script, StepNormal(script, st).next)
  {
    hide Inert;
    InertEmpty();
    var i, c := st.index, script[st.index];
    var next := StepNormal(script, st).next;
    if next.start == i + |st.delimiter| {
      assert script[next.start..next.index] == "";
    } else if next.mode.InLine? {
      assert LineOpen(script, i, next.index);
    } else if next.mode.InBlock? && !next.hasSql {
      assert BlockOpen(script, i, next.index);
    } else if next.hasSql {
      assert SqlAt(script, i);
    } else {
      SpaceNext(script, st.start, i);
    }
  }

  /** Once SQL was seen it stays seen until the buffer is emptied. */
  lemma SqlKeeps(script: string, st: State)
    requires Lexed(script, st) && st.index < |script| && st.hasSql
    ensures Lexed(script, StepMode(script, st).next)
  {
    hide Inert, SqlAt;
    InertEmpty();
    var cut :| st.start <= cut < st.index && Inert(script[st.start..cut]) && SqlAt(script, cut);
    var next := StepMode(script, st).next;
    if next.start != st.start { assert script[next.start..next.index] == ""; }
  }

  lemma StepKeeps(script: string, st: State)
    requires Lexed(script, st) && st.index < |script| && Step(script, st).Move?
    ensures Lexed(script, Step(script, st).next)
  {
    hide Inert, SqlSoFar, StepLine, StepBlock, StepNormal;
    InertEmpty();
    var directive := DirectiveHere(script, st);
    if directive.Some? {
      DirectiveHasText(script[st.index..LineEnd(script, st.index)]);
      var next := Step(script, st).next;
      assert script[next.start..next.index] == "";
    } else if st.hasSql {
      SqlKeeps(script, st);
    } else {
      match st.mode
      case InLine => LineKeeps(script, st);
      case InBlock => BlockKeeps(script, st);
      case Normal => NormalKeeps(script, st);
      case Quoted(_) =>
    }
  }

  // ---------------------------------------------------------------- the theorem

  lemma BufferSound(script: string, st: State, delimiter: string)
    requires Lexed(script, st) && !(st.mode.Quoted? || st.mode.InBlock?)
    ensures PieceSound(script, st.start, st.index, delimiter, Buffered(script, st))
  {
    hide Inert, SqlAt;
    if !st.hasSql && st.mode.InLine? {
      var cut :| st.start <= cut < st.index && Inert(script[st.start..cut]) && LineOpen(script, cut, st.index);
      LineCloses(script, st.start, cut, st.index);
    }
  }

  lemma CoversPair(script: string, pos: nat, mid: nat, end: nat, delimiter: string, a: Piece, b: Piece,
                   rest: seq<Piece>)
    requires pos <= mid <= end <= |script| && a.text == script[pos..mid] && b.text == script[mid..end]
    requires !a.Directive? && PieceSound(script, pos, mid, delimiter, a) && PieceSound(script, mid, end, delimiter, b)
    requires Covers(script, end, DelimiterAfter(script, mid, delimiter, b), rest)
    ensures Covers(script, pos, delimiter, [a, b] + rest)
  {
    hide PieceSound, DirectiveOf;
    assert ([a, b] + rest)[1..] == [b] + rest && ([b] + rest)[1..] == rest;
    assert Covers(script, mid, delimiter, [b] + rest);
  }

  lemma StepEmitsNothing(script: string, st: State)
    requires Within(script, st) && st.index < |script| && Step(script, st).Move? && Step(script, st).pieces == []
    ensures Step(script, st).next.start == st.start && Step(script, st).next.delimiter == st.delimiter
  {
    hide DirectiveOf, IsSpace;
  }

  lemma StepEmitsTwo(script: string, st: State)
    requires Within(script, st) && st.index < |script| && Step(script, st).Move? && Step(script, st).pieces != []
    ensures !(st.mode.Quoted? || st.mode.InBlock?)
    ensures var Move(next, pieces) := Step(script, st);
      && |pieces| == 2 && pieces[0] == Buffered(script, st) && !pieces[0].Directive?
      && st.index <= next.start <= |script| && pieces[1].text == script[st.index..next.start]
      && PieceSound(script, st.index, next.start, st.delimiter, pieces[1])
      && next.delimiter == DelimiterAfter(script, st.index, st.delimiter, pieces[1])
  {
    hide DirectiveOf, IsSpace, Inert, SqlAt;
  }

  lemma StepCovers(script: string, st: State, rest: seq<Piece>)
    requires Lexed(script, st) && st.index < |script| && Step(script, st).Move?
    requires Covers(script, Step(script, st).next.start, Step(script, st).next.delimiter, rest)
    ensures Covers(script, st.start, st.delimiter, Step(script, st).pieces + rest)
  {
    hide Inert, Covers, SqlSoFar, BlankSoFar, Step, PieceSound, DelimiterAfter, Buffered;
    var Move(next, pieces) := Step(script, st);
    if pieces == [] {
      StepEmitsNothing(script, st);
      assert [] + rest == rest;
    } else {
      StepEmitsTwo(script, st);
      BufferSound(script, st, st.delimiter);
      BufferText(script, st);
      assert pieces == [pieces[0], pieces[1]];
      CoversPair(script, st.start, st.index, next.start, st.delimiter, pieces[0], pieces[1], rest);
    }
  }

  lemma BufferText(script: string, st: State)
    requires Within(script, st)
    ensures Buffered(script, st).text == script[st.start..st.index]
  {
  }

  lemma {:induction false} RunCovers(script: string, st: State)
    requires Lexed(script, st) && Run(script, st).Success?
    ensures Covers(script, st.start, st.delimiter, Run(script, st).value)
    decreases |script| - st.index
  {
    hide SqlSoFar, BlankSoFar, Step, PieceSound, Covers;
    if st.index == |script| {
      FinishCovers(script, st);
    } else {
      StepKeeps(script, st);
      var Move(next, pieces) := Step(script, st);
      RunCovers(script, next);
      StepCovers(script, st, Run(script, next).value);
    }
  }

  lemma FinishCovers(script: string, st: State)
    requires Lexed(script, st) && st.index == |script| && Finish(script, st).Success?
    ensures Covers(script, st.start, st.delimiter, Finish(script, st).value)
  {
    hide SqlSoFar, BlankSoFar, DirectiveOf, Inert;
    BufferSound(script, st, st.delimiter);
    assert Finish(script, st).value == [Buffered(script, st)];
    assert [Buffered(script, st)][1..] == [];
  }

  /** Every accepted script is tiled by its pieces: statements are ordered and disjoint, and every
      character that is not trivia, separator or directive lies in exactly one of them. */
  lemma PiecesTileTheScript(script: string)
    requires Run(script, INITIAL).Success?
    ensures Covers(script, 0, ";", Run(script, INITIAL).value)
  {
    InertEmpty();
    assert script[0..0] == "";
    RunCovers(script, INITIAL);
  }
}
