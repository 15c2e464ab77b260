/**
`split_mysql_script` as it runs: one loop over the characters with a buffer and five flags.
*/
module ScriptLoop {
  import opened Wrappers
  import opened Text
  import opened ScriptGrammar
  import opened ScriptSplitter

  function ModeOf(quote: Option<char>, lineComment: bool, blockComment: bool): Mode {
    if lineComment then InLine else if blockComment then InBlock
    else if quote.Some? then Quoted(quote.value) else Normal
  }

  lemma {:induction false} StatementsAppend(a: seq<Piece>, b: seq<Piece>)
    ensures Statements(a + b) == Statements(a) + Statements(b)
  {
    hide Strip;
    if a == [] {
      assert a + b == b;
    } else {
      assert (a + b)[1..] == a[1..] + b;
      StatementsAppend(a[1..], b);
    }
  }

  lemma StatementsOfTwo(a: Piece, b: Piece)
    requires !b.Statement?
    ensures Statements([a, b]) == if a.Statement? then [Strip(a.text)] else []
  {
    hide Strip;
    assert [a, b][1..] == [b];
    assert Statements([b]) == [];
  }

  /** The result of the whole script, when `done` was emitted before `st` was reached. */
  function Continue(script: string, st: State, done: seq<string>): Result<seq<string>>
    requires Within(script, st)
  {
    var r := Run(script, st);
    if r.Success? then Success(done + Statements(r.value)) else Failure(r.message)
  }

  lemma ContinueStart(script: string)
    ensures Split(script) == Continue(script, INITIAL, [])
  {
    hide Run;
    var r := Run(script, INITIAL);
    if r.Success? { assert [] + Statements(r.value) == Statements(r.value); }
  }

  lemma ContinueMisplaced(script: string, st: State, done: seq<string>)
    requires Within(script, st) && st.index < |script| && Step(script, st).Misplaced?
    ensures Continue(script, st, done) == Failure(MISPLACED)
  {
    hide Step, Statements;
  }

  lemma ContinueMove(script: string, st: State, done: seq<string>)
    requires Within(script, st) && st.index < |script| && Step(script, st).Move?
    ensures Continue(script, st, done)
         == Continue(script, Step(script, st).next, done + Statements(Step(script, st).pieces))
  {
    hide Step, Statements;
    var Move(next, pieces) := Step(script, st);
    var r := Run(script, next);
    if r.Success? {
      StatementsAppend(pieces, r.value);
      assert done + (Statements(pieces) + Statements(r.value)) == done + Statements(pieces) + Statements(r.value);
    }
  }

  lemma ContinueEnd(script: string, st: State, done: seq<string>)
    requires Within(script, st) && st.index == |script|
    ensures Continue(script, st, done)
         == if Finish(script, st).Success? then Success(done) else Failure(Finish(script, st).message)
  {
    hide Step, Strip;
    assert Run(script, st) == Finish(script, st);
    assert Statements([Blank(script[st.start..st.index])]) == [];
    assert done + [] == done;
  }

  lemma SliceNext(script: string, a: nat, b: nat)
    requires a <= b < |script|
    ensures script[a..b] + [script[b]] == script[a..b + 1]
    ensures b + 1 < |script| ==> script[a..b] + [script[b], script[b + 1]] == script[a..b + 2]
    ensures b + 1 < |script| ==> script[a..b + 1] + [script[b + 1]] == script[a..b + 2]
  {
  }

  /** The local variables of the loop, one method per branch of its body. */
  class Lexer {
    var index: nat
    var lineStart: nat
    var delimiter: string
    var quote: Option<char>
    var lineComment: bool
    var blockComment: bool
    var hasSql: bool
    var buffer: string
    var statements: seq<string>

    constructor ()
      ensures forall script :: At(script, INITIAL)
      ensures index == 0 && statements == []
    {
      index, lineStart, delimiter, quote := 0, 0, ";", None;
      lineComment, blockComment, hasSql, buffer, statements := false, false, false, "", [];
    }

    /** The variables represent the state `st`; the buffer is what was read since the last piece. */
    ghost predicate At(script: string, st: State)
      reads this
    {
      && Within(script, st) && buffer == script[st.start..st.index] && delimiter != ""
      && st == State(index, lineStart, st.start, delimiter, ModeOf(quote, lineComment, blockComment), hasSql)
      && !(lineComment && blockComment) && (quote.Some? ==> !lineComment && !blockComment)
    }

    method Directive(script: string, ghost st: State, found: string)
      requires At(script, st) && index < |script| && !hasSql && quote.None? && !blockComment && found != ""
      modifies this
      ensures At(script, StepDirective(script, st, found).next) && statements == old(statements)
    {
      delimiter, buffer := found, "";
      index := AfterLine(script, index);
      lineStart := index;
      lineComment := false;
    }

    method InLineComment(script: string, ghost st: State)
      requires At(script, st) && index < |script| && lineComment
      modifies this
      ensures At(script, StepLine(script, st).next) && statements == old(statements)
    {
      SliceNext(script, st.start, st.index);
      var c := script[index];
      buffer := buffer + [c];
      index := index + 1;
      if c == '\n' { lineComment, lineStart := false, index; }
    }

    method InBlockComment(script: string, ghost st: State)
      requires At(script, st) && index < |script| && blockComment
      modifies this
      ensures At(script, StepBlock(script, st).next) && statements == old(statements)
    {
      SliceNext(script, st.start, st.index);
      var c := script[index];
      buffer := buffer + [c];
      if c == '*' && Holds(script, index + 1, '/') {
        buffer := buffer + ['/'];
        index := index + 2;
        blockComment := false;
      } else {
        index := index + 1;
      }
      if c == '\n' { lineStart := index; }
    }

    method InQuote(script: string, ghost st: State)
      requires At(script, st) && index < |script| && quote.Some?
      modifies this
      ensures At(script, StepQuoted(script, st).next) && statements == old(statements)
    {
      SliceNext(script, st.start, st.index);
      var c := script[index];
      buffer := buffer + [c];
      if (c == '\\' && index + 1 < |script|) || (c == quote.value && Holds(script, index + 1, quote.value)) {
        buffer := buffer + [script[index + 1]];
        index := index + 2;
        return;
      }
      if c == quote.value { quote := None; }
      index := index + 1;
      if c == '\n' { lineStart := index; }
    }

    predicate CommentAhead(script: string, i: nat)
      requires i < |script|
    {
      || (script[i] == '-' && Holds(script, i + 1, '-') && StartsDashComment(script, i))
      || script[i] == '#' || (script[i] == '/' && Holds(script, i + 1, '*'))
    }

    method OpenComment(script: string, ghost st: State)
      requires At(script, st) && index < |script| && quote.None? && !lineComment && !blockComment
      requires CommentAhead(script, index)
      modifies this
      ensures At(script, StepNormal(script, st).next)
      ensures statements == old(statements) && StepNormal(script, st).pieces == []
    {
      hide IsSpace, Strip, StartsDashComment, StartsWith;
      SliceNext(script, st.start, st.index);
      var c := script[index];
      if c == '-' {
        buffer := buffer + [c, script[index + 1]];
        index := index + 2;
        lineComment := true;
      } else if c == '#' {
        buffer := buffer + [c];
        index := index + 1;
        lineComment := true;
      } else {
        buffer := buffer + [c, script[index + 1]];
        if Holds(script, index + 2, '!') { hasSql := true; }
        index := index + 2;
        blockComment := true;
      }
    }

    method InNormal(script: string, ghost st: State)
      requires At(script, st) && index < |script| && quote.None? && !lineComment && !blockComment
      modifies this
      ensures At(script, StepNormal(script, st).next)
      ensures statements == old(statements) + Statements(StepNormal(script, st).pieces)
    {
      hide IsSpace, Strip, StartsDashComment, Statements;
      SliceNext(script, st.start, st.index);
      StatementsOfNone(statements);
      var c := script[index];
      if CommentAhead(script, index) {
        OpenComment(script, st);
      } else if c in {'\'', '"', '`'} {
        quote := Some(c);
        buffer := buffer + [c];
        hasSql := true;
        index := index + 1;
      } else if StartsWith(script, index, delimiter) {
        StatementsOfTwo(Buffered(script, st), Separator(delimiter));
        statements := statements + (if hasSql then [Strip(buffer)] else []);
        buffer := "";
        hasSql := false;
        index := index + |delimiter|;
      } else {
        buffer := buffer + [c];
        hasSql := hasSql || !IsSpace(c);
        index := index + 1;
        if c == '\n' { lineStart := index; }
      }
    }

    /** One round of the loop. */
    method Round(script: string, ghost st: State) returns (ok: bool)
      requires At(script, st) && index < |script|
      modifies this
      ensures ok <==> Step(script, st).Move?
      ensures ok ==> At(script, Step(script, st).next)
                     && statements == old(statements) + Statements(Step(script, st).pieces)
    {
      hide DirectiveOf, StepLine, StepBlock, StepQuoted, StepNormal, Strip, IsSpace;
      ok := true;
      var directive := None;
      if index == lineStart && quote.None? && !blockComment {
        directive := DirectiveOf(script[index..LineEnd(script, index)]);
      }
      if directive.Some? {
        if hasSql { return false; }
        DirectiveHasText(script[index..LineEnd(script, index)]);
        var pieces := Step(script, st).pieces;
        StatementsOfTwo(pieces[0], pieces[1]);
        Directive(script, st, directive.value);
      } else {
        QuietSteps(script, st);
        if lineComment {
          InLineComment(script, st);
        } else if blockComment {
          InBlockComment(script, st);
        } else if quote.Some? {
          InQuote(script, st);
        } else {
          InNormal(script, st);
        }
      }
    }
  }

  lemma StatementsOfNone(done: seq<string>)
    ensures done + Statements([]) == done
  {
  }

  lemma QuietSteps(script: string, st: State)
    requires st.index < |script|
    ensures StepLine(script, st).Move? && StepLine(script, st).pieces == []
    ensures StepBlock(script, st).Move? && StepBlock(script, st).pieces == []
    ensures st.mode.Quoted? ==> StepQuoted(script, st).Move? && StepQuoted(script, st).pieces == []
    ensures Within(script, st) ==> StepNormal(script, st).Move?
  {
    hide IsSpace;
  }

  /** What the items of a script say about splitting it. */
  lemma AcceptsIffSpelled(script: string)
    ensures Split(script).Success? <==> exists items :: Spells(script, 0, true, ";", false, items)
    ensures forall items :: Spells(script, 0, true, ";", false, items) ==>
      Split(script) == Success(Told(items, ";", "", false))
  {
    hide Split, Spells, Told;
    if Split(script).Success? { SplitsIffSpelled(script, Split(script).value); }
    forall items | Spells(script, 0, true, ";", false, items)
      ensures Split(script) == Success(Told(items, ";", "", false))
    {
      SplitsIffSpelled(script, Told(items, ";", "", false));
    }
  }

  method SplitMysqlScript(script: string) returns (r: Result<seq<string>>)
    ensures r == Split(script)
    ensures r.Success? <==> exists items :: Spells(script, 0, true, ";", false, items)
    ensures forall items :: Spells(script, 0, true, ";", false, items) ==> r == Success(Told(items, ";", "", false))
  {
    AcceptsIffSpelled(script);
    hide Step, Strip, Continue, Split, Spells, Told;
    var lexer := new Lexer();
    ghost var st := INITIAL;
    ContinueStart(script);
    while lexer.index < |script|
      invariant fresh(lexer) && lexer.At(script, st)
      invariant Split(script) == Continue(script, st, lexer.statements)
      decreases |script| - lexer.index
    {
      if Step(script, st).Move? {
        ContinueMove(script, st, lexer.statements);
      } else {
        ContinueMisplaced(script, st, lexer.statements);
      }
      var ok := lexer.Round(script, st);
      if !ok { return Failure(MISPLACED); }
      st := Step(script, st).next;
    }
    ContinueEnd(script, st, lexer.statements);
    if lexer.quote.Some? { return Failure(UNCLOSED_QUOTE); }
    if lexer.blockComment { return Failure(UNCLOSED_COMMENT); }
    if lexer.hasSql { return Failure(INCOMPLETE); }
    return Success(lexer.statements);
  }
}
