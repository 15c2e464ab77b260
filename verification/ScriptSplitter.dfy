/**
`split_mysql_script`: the lexer that cuts a mysql-client script into single statements, so that
migrations run without multi-statement support.  A script is a sequence of pieces: statements,
blank stretches (white space and comments), separators and DELIMITER directives.
*/
module ScriptSplitter {
  import opened Wrappers
  import opened Text

  // ---------------------------------------------------------------- places in a script

  predicate StartsWith(script: string, i: nat, word: string) {
    i + |word| <= |script| && script[i..i + |word|] == word
  }

  /** The character at `i`, when there is one. */
  predicate Holds(script: string, i: nat, c: char) { i < |script| && script[i] == c }

  // ---------------------------------------------------------------- DELIMITER lines

  const KEYWORD := "DELIMITER"

  /** Case-insensitive comparison with a capital letter; the letter I has two more variants. */
  predicate SameLetter(c: char, capital: char) {
    || c == capital
    || (c as int == capital as int + 32 && 'A' <= capital <= 'Z')
    || (capital == 'I' && (c as int == 0x130 || c as int == 0x131))
  }

  predicate IsKeyword(word: string) {
    |word| == |KEYWORD| && forall i :: 0 <= i < |KEYWORD| ==> SameLetter(word[i], KEYWORD[i])
  }

  /** The delimiter a line sets, if the whole line is a DELIMITER directive. */
  function DirectiveOf(line: string): Option<string> {
    var i := SkipSpaces(line, 0);
    if i + |KEYWORD| < |line| && IsKeyword(line[i..i + |KEYWORD|]) && IsSpace(line[i + |KEYWORD|]) then
      var j := SkipSpaces(line, i + |KEYWORD|);
      var k := SkipWord(line, j);
      if j < k && SkipSpaces(line, k) == |line| then Some(line[j..k]) else None
    else None
  }

  lemma DirectiveHasText(line: string)
    ensures DirectiveOf(line).Some? ==> DirectiveOf(line).value != ""
  {
    hide IsKeyword;
  }

  /** Where the line that holds position `i` ends: at its newline or at the end of the script. */
  function LineEnd(script: string, i: nat): (j: nat)
    requires i <= |script|
    ensures i <= j <= |script|
    decreases |script| - i
  {
    if i < |script| && script[i] != '\n' then LineEnd(script, i + 1) else i
  }

  // ---------------------------------------------------------------- one step

  datatype Mode = Normal | Quoted(mark: char) | InLine | InBlock

  /** `start` is where the buffer begins: the buffer is always `script[start..index]`. */
  datatype State = State(index: nat, lineStart: nat, start: nat, delimiter: string, mode: Mode, hasSql: bool)

  datatype Piece = Statement(text: string) | Blank(text: string) | Separator(text: string) | Directive(text: string)

  datatype Outcome = Move(next: State, pieces: seq<Piece>) | Misplaced

  predicate Within(script: string, st: State) { st.start <= st.index <= |script| }

  /** Appends `n` characters to the buffer; a newline among them may begin a new line. */
  function Take(script: string, st: State, n: nat, mode: Mode, sql: bool): Outcome
    requires st.index + n <= |script|
  {
    var line := if Holds(script, st.index, '\n') then st.index + n else st.lineStart;
    Move(st.(index := st.index + n, lineStart := line, mode := mode, hasSql := st.hasSql || sql), [])
  }

  /** Like `Take`, for the two-character steps inside a quotation, which never look for newlines. */
  function TakePair(st: State): Outcome {
    Move(st.(index := st.index + 2), [])
  }

  function StepLine(script: string, st: State): Outcome
    requires st.index < |script|
  {
    Take(script, st, 1, if script[st.index] == '\n' then Normal else InLine, false)
  }

  function StepBlock(script: string, st: State): Outcome
    requires st.index < |script|
  {
    if script[st.index] == '*' && Holds(script, st.index + 1, '/') then Take(script, st, 2, Normal, false)
    else Take(script, st, 1, InBlock, false)
  }

  function StepQuoted(script: string, st: State): Outcome
    requires st.index < |script| && st.mode.Quoted?
  {
    var c := script[st.index];
    if c == '\\' && st.index + 1 < |script| then TakePair(st)
    else if c == st.mode.mark && Holds(script, st.index + 1, c) then TakePair(st)
    else Take(script, st, 1, if c == st.mode.mark then Normal else st.mode, false)
  }

  predicate StartsDashComment(script: string, i: nat) {
    i + 2 >= |script| || IsSpace(script[i + 2])
  }

  function Buffered(script: string, st: State): Piece
    requires Within(script, st)
  {
    if st.hasSql then Statement(script[st.start..st.index]) else Blank(script[st.start..st.index])
  }

  function StepNormal(script: string, st: State): Outcome
    requires st.index < |script| && Within(script, st)
  {
    var i, c := st.index, script[st.index];
    if c == '-' && Holds(script, i + 1, '-') && StartsDashComment(script, i) then Take(script, st, 2, InLine, false)
    else if c == '#' then Take(script, st, 1, InLine, false)
    else if c == '/' && Holds(script, i + 1, '*') then Take(script, st, 2, InBlock, Holds(script, i + 2, '!'))
    else if c in {'\'', '"', '`'} then Take(script, st, 1, Quoted(c), true)
    else if st.delimiter != "" && StartsWith(script, i, st.delimiter) then
      var after := i + |st.delimiter|;
      Move(st.(index := after, start := after, hasSql := false), [Buffered(script, st), Separator(st.delimiter)])
    else Take(script, st, 1, Normal, !IsSpace(c))
  }

  /** The line at a line start, when the lexer is not inside a quotation or a block comment. */
  function DirectiveHere(script: string, st: State): Option<string>
    requires st.index <= |script|
  {
    if st.index == st.lineStart && (st.mode.Normal? || st.mode.InLine?)
    then DirectiveOf(script[st.index..LineEnd(script, st.index)]) else None
  }

  function AfterLine(script: string, i: nat): (j: nat)
    requires i < |script|
    ensures i < j <= |script|
  {
    var end := LineEnd(script, i);
    if end < |script| then end + 1 else end
  }

  function StepDirective(script: string, st: State, delimiter: string): Outcome
    requires st.index < |script| && Within(script, st)
  {
    if st.hasSql then Misplaced else
      var after := AfterLine(script, st.index);
      Move(State(after, after, after, delimiter, Normal, false),
           [Blank(script[st.start..st.index]), Directive(script[st.index..after])])
  }

  function StepMode(script: string, st: State): Outcome
    requires st.index < |script| && Within(script, st)
  {
    match st.mode
    case InLine => StepLine(script, st)
    case InBlock => StepBlock(script, st)
    case Quoted(_) => StepQuoted(script, st)
    case Normal => StepNormal(script, st)
  }

  function Step(script: string, st: State): (o: Outcome)
    requires st.index < |script| && Within(script, st)
    ensures o.Move? ==> Within(script, o.next) && st.index < o.next.index
  {
    var directive := DirectiveHere(script, st);
    if directive.Some? then StepDirective(script, st, directive.value) else StepMode(script, st)
  }

  // ---------------------------------------------------------------- a whole script

  const UNCLOSED_QUOTE := "SQL script ended with an unclosed quote"
  const UNCLOSED_COMMENT := "SQL script ended with an unclosed block comment"
  const INCOMPLETE := "SQL script ended with an incomplete statement"
  const MISPLACED := "DELIMITER directive appears inside a statement"

  function Finish(script: string, st: State): Result<seq<Piece>>
    requires Within(script, st)
  {
    if st.mode.Quoted? then Failure(UNCLOSED_QUOTE)
    else if st.mode.InBlock? then Failure(UNCLOSED_COMMENT)
    else if st.hasSql then Failure(INCOMPLETE)
    else Success([Blank(script[st.start..st.index])])
  }

  function Prepend(pieces: seq<Piece>, r: Result<seq<Piece>>): Result<seq<Piece>> {
    if r.Success? then Success(pieces + r.value) else r
  }

  function Run(script: string, st: State): Result<seq<Piece>>
    requires Within(script, st)
    decreases |script| - st.index
  {
    if st.index == |script| then Finish(script, st)
    else
      match Step(script, st)
      case Misplaced => Failure(MISPLACED)
      case Move(next, pieces) => Prepend(pieces, Run(script, next))
  }

  const INITIAL := State(0, 0, 0, ";", Normal, false)

  function Statements(pieces: seq<Piece>): seq<string> {
    if pieces == [] then []
    else (if pieces[0].Statement? then [Strip(pieces[0].text)] else []) + Statements(pieces[1..])
  }

  function Split(script: string): Result<seq<string>> {
    var r := Run(script, INITIAL);
    if r.Success? then Success(Statements(r.value)) else Failure(r.message)
  }
}
