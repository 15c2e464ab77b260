/**
`SessionManager.get_response`: the retry loop of one HTTP request, with its two separate budgets
for attempts and for browser refreshes.  `log` records what the environment sees.
*/
module Retry {
  import opened Wrappers

  /** What the redirect target of a response looks like. */
  datatype Target = Target(challenge: bool, keepsUnit: bool, brandIndex: bool)

  datatype Reply =
    | Response(status: int, challenge: bool, retryAfter: Option<int>, target: Target)
    | ConnectionLost
    | TimedOut
    | RequestError

  datatype Verdict = Page | Missing | Refused | Challenged | Limited(seconds: int) | Unreachable | Failed

  const REFRESH_RETRY_BACKOFF := 60

  /** The pause a 429 asks for, never shorter than 15 seconds and never longer than the cap. */
  function RetryAfter(header: Option<int>, cap: int): (seconds: int)
    ensures seconds <= cap
    ensures cap >= 15 ==> seconds >= 15
    ensures header.Some? && 15 <= header.value <= cap ==> seconds == header.value
    ensures PauseAsked(header, cap, seconds)
  {
    var asked := if header.Some? then header.value else REFRESH_RETRY_BACKOFF + 5;
    var least := if asked > 15 then asked else 15;
    if least < cap then least else cap
  }

  /** How one reply is treated.  A challenge is looked for before the status codes. */
  function Classify(reply: Reply, unit: bool, cap: int): Verdict {
    match reply
    case ConnectionLost => Unreachable
    case TimedOut => Unreachable
    case RequestError => Failed
    case Response(status, challenge, retryAfter, target) =>
      if status == 403 || challenge then Challenged
      else if status == 429 then Limited(RetryAfter(retryAfter, cap))
      else if status == 404 then Missing
      else if 300 <= status < 400 then
        if target.challenge then Challenged
        else if unit && !target.keepsUnit then Missing
        else if target.brandIndex then Missing
        else Refused
      else if !(200 <= status < 300) then Failed
      else Page
  }

  /** A challenge: status 403, its marks on the page, or a redirect that leads to one. */
  predicate IsChallenge(reply: Reply) {
    && reply.Response?
    && (reply.status == 403 || reply.challenge
        || (300 <= reply.status <= 399 && reply.target.challenge))
  }

  /** The page asked for is not there: the site says so, or leads away from the unit or to the brand's index. */
  predicate IsGone(reply: Reply, unit: bool) {
    && reply.Response? && !IsChallenge(reply)
    && (reply.status == 404
        || (300 <= reply.status <= 399 && (reply.target.brandIndex || (unit && !reply.target.keepsUnit))))
  }

  /** `seconds` is what a 429 asks for, 65 by default, brought between 15 and the cap. */
  predicate PauseAsked(header: Option<int>, cap: int, seconds: int) {
    var asked := if header == None then 65 else header.value;
    if cap < 15 then seconds == cap
    else if asked < 15 then seconds == 15 else if asked > cap then seconds == cap else seconds == asked
  }

  /** How a reply is read, verdict by verdict. */
  predicate ReadAs(reply: Reply, unit: bool, cap: int, verdict: Verdict) {
    match verdict
    case Challenged => IsChallenge(reply)
    case Limited(seconds) =>
      reply.Response? && !IsChallenge(reply) && reply.status == 429 && PauseAsked(reply.retryAfter, cap, seconds)
    case Missing => IsGone(reply, unit)
    case Refused => reply.Response? && !IsChallenge(reply) && !IsGone(reply, unit) && 300 <= reply.status <= 399
    case Page => reply.Response? && !IsChallenge(reply) && 200 <= reply.status <= 299
    case Unreachable => reply == ConnectionLost || reply == TimedOut
    case Failed =>
      reply == RequestError
      || (reply.Response? && !IsChallenge(reply) && reply.status !in {404, 429} && !(200 <= reply.status <= 399))
  }

  /** Every reply is read in exactly one way. */
  lemma ReadIsClassified(reply: Reply, unit: bool, cap: int, verdict: Verdict)
    ensures ReadAs(reply, unit, cap, verdict) <==> verdict == Classify(reply, unit, cap)
  {
  }

  datatype Event =
    | Acquired
    | Sent(cookies: string, verdict: Verdict)
    | Throttled(seconds: int)
    | Refreshed(rejected: string, got: Option<string>)
    | Rejected(version: string)
    | Rebuilt
    | Fetched(result: Fetch)

  datatype Fetch = FetchedPage | NoPage | OffPage

  datatype LastError = NoError | ChallengeError | OtherError

  datatype Outcome = Got | NotFound | RedirectRefused | GotByBrowser | BrowserLeftPage | GaveUp(last: LastError)

  datatype Config = Config(maxRetries: nat, challengeRetries: nat, retryAfterCap: int, governed: bool, noBrowser: bool)

  // ---------------------------------------------------------------- counting

  function Sends(log: seq<Event>): nat {
    if log == [] then 0 else Sends(log[..|log| - 1]) + if log[|log| - 1].Sent? then 1 else 0
  }

  function Refreshes(log: seq<Event>): nat {
    if log == [] then 0 else Refreshes(log[..|log| - 1]) + if log[|log| - 1].Refreshed? then 1 else 0
  }

  function Successes(log: seq<Event>): nat {
    if log == [] then 0
    else Successes(log[..|log| - 1]) + if log[|log| - 1].Refreshed? && log[|log| - 1].got.Some? then 1 else 0
  }

  lemma Counted(log: seq<Event>, e: Event)
    ensures Sends(log + [e]) == Sends(log) + if e.Sent? then 1 else 0
    ensures Refreshes(log + [e]) == Refreshes(log) + if e.Refreshed? then 1 else 0
    ensures Successes(log + [e]) == Successes(log) + if e.Refreshed? && e.got.Some? then 1 else 0
  {
    assert (log + [e])[..|log|] == log;
  }

  // ---------------------------------------------------------------- the shape of a log

  /** What may stand right before an event. */
  predicate Follows(before: Option<Event>, e: Event, config: Config) {
    match e
    case Acquired => true
    case Sent(_, _) => config.governed ==> before == Some(Acquired)
    case Throttled(seconds) => before.Some? && before.value.Sent? && before.value.verdict == Limited(seconds)
    case Refreshed(rejected, _) => before == Some(Sent(rejected, Challenged)) && !config.noBrowser
    case Rejected(version) => before == Some(Sent(version, Challenged))
    case Rebuilt => before.Some? && before.value.Sent? && before.value.verdict == Unreachable
    case Fetched(_) => before.Some? && !config.noBrowser && Blocked(before.value)
  }

  /** The last thing that happened was a challenge, and whatever was tried against it. */
  predicate Blocked(e: Event) {
    (e.Sent? && e.verdict.Challenged?) || e.Rejected? || (e.Refreshed? && e.got.None?)
  }

  function Before(log: seq<Event>, i: nat): Option<Event>
    requires i <= |log|
  {
    if i == 0 then None else Some(log[i - 1])
  }

  predicate Ordered(log: seq<Event>, config: Config) {
    forall i :: 0 <= i < |log| ==> Follows(Before(log, i), log[i], config)
  }

  /** What must come after an event. */
  predicate Answered(e: Event, rest: seq<Event>, config: Config) {
    match e
    case Sent(_, Limited(seconds)) => config.governed ==> rest != [] && rest[0] == Throttled(seconds)
    case Sent(_, Unreachable) => rest != [] && rest[0] == Rebuilt
    case Refreshed(_, Some(renewed)) =>
      if config.governed then |rest| > 1 && rest[0] == Acquired && rest[1].Sent? && rest[1].cookies == renewed
      else rest != [] && rest[0].Sent? && rest[0].cookies == renewed
    case _ => true
  }

  predicate AllAnswered(log: seq<Event>, config: Config) {
    forall i :: 0 <= i < |log| ==> Answered(log[i], log[i + 1..], config)
  }

  /** A page, a missing page and a refused redirect end the call: nothing follows them. */
  predicate Stopping(e: Event) { e.Sent? && (e.verdict.Page? || e.verdict.Missing? || e.verdict.Refused?) }

  predicate NoneStopping(log: seq<Event>) { forall e :: e in log ==> !Stopping(e) }

  lemma OrderedAppend(log: seq<Event>, e: Event, config: Config)
    requires Ordered(log, config)
    requires Follows(Before(log, |log|), e, config)
    ensures Ordered(log + [e], config)
  {
    hide Follows;
    var next := log + [e];
    forall i | 0 <= i < |next| ensures Follows(Before(next, i), next[i], config) {
      if i < |log| { assert Follows(Before(log, i), log[i], config); }
      assert Before(next, i) == Before(log, i);
    }
  }

  lemma Push(log: seq<Event>, e: Event, config: Config)
    requires Ordered(log, config) && NoneStopping(log)
    requires Follows(Before(log, |log|), e, config)
    ensures Ordered(log + [e], config) && (!Stopping(e) ==> NoneStopping(log + [e]))
    ensures Sends(log + [e]) == Sends(log) + if e.Sent? then 1 else 0
    ensures Refreshes(log + [e]) == Refreshes(log) + if e.Refreshed? then 1 else 0
    ensures Successes(log + [e]) == Successes(log) + if e.Refreshed? && e.got.Some? then 1 else 0
  {
    OrderedAppend(log, e, config);
    Counted(log, e);
  }

  /** Everything is answered, except that the last event may be a successful refresh. */
  predicate Open(log: seq<Event>, config: Config, cookies: string) {
    forall i :: 0 <= i < |log| ==>
      Answered(log[i], log[i + 1..], config) || (i == |log| - 1 && Renewal(log[i], cookies))
  }

  predicate Renewal(e: Event, cookies: string) { e.Refreshed? && e.got == Some(cookies) }

  predicate Starts(round: seq<Event>, config: Config, cookies: string) {
    if config.governed then |round| > 1 && round[0] == Acquired && round[1].Sent? && round[1].cookies == cookies
    else round != [] && round[0].Sent? && round[0].cookies == cookies
  }

  lemma NextRound(log: seq<Event>, round: seq<Event>, config: Config, before: string, after: string)
    requires Open(log, config, before) && Starts(round, config, before) && Open(round, config, after)
    ensures Open(log + round, config, after)
  {
    var next := log + round;
    forall i | 0 <= i < |next|
      ensures Answered(next[i], next[i + 1..], config) || (i == |next| - 1 && Renewal(next[i], after))
    {
      if i < |log| {
        assert next[i + 1..] == log[i + 1..] + round;
      } else {
        assert next[i + 1..] == round[i - |log| + 1..];
      }
    }
  }

  lemma LastStep(log: seq<Event>, e: Event, config: Config)
    requires AllAnswered(log, config) && (e.Fetched? || e.Rejected?)
    ensures AllAnswered(log + [e], config)
  {
    var next := log + [e];
    forall i | 0 <= i < |next| ensures Answered(next[i], next[i + 1..], config) {
      if i < |log| { assert next[i + 1..] == log[i + 1..] + [e]; }
    }
  }

  // ---------------------------------------------------------------- where a log comes from

  /** The verdict of the last reply. */
  function LastOf(log: seq<Event>): LastError {
    if log == [] then NoError
    else
      var e := log[|log| - 1];
      if e.Sent? then (if e.verdict == Challenged then ChallengeError else OtherError) else LastOf(log[..|log| - 1])
  }

  /** Request number `n` of the log was read from reply number `n`, and refreshes were answered in turn. */
  ghost predicate ComesFrom(log: seq<Event>, unit: bool, cap: int, replies: seq<Reply>,
                            refreshes: seq<Option<string>>) {
    forall i :: 0 <= i < |log| ==> Sourced(log, i, unit, cap, replies, refreshes)
  }

  ghost predicate Sourced(log: seq<Event>, i: nat, unit: bool, cap: int, replies: seq<Reply>,
                          refreshes: seq<Option<string>>)
    requires i < |log|
  {
    && (log[i].Sent? ==>
          Sends(log[..i]) < |replies| && ReadAs(replies[Sends(log[..i])], unit, cap, log[i].verdict))
    && (log[i].Refreshed? ==>
          Refreshes(log[..i]) < |refreshes| && log[i].got == refreshes[Refreshes(log[..i])])
  }

  lemma SourcedPush(log: seq<Event>, e: Event, unit: bool, cap: int, replies: seq<Reply>,
                    refreshes: seq<Option<string>>)
    requires ComesFrom(log, unit, cap, replies, refreshes)
    requires e.Sent? ==> Sends(log) < |replies| && e.verdict == Classify(replies[Sends(log)], unit, cap)
    requires e.Refreshed? ==> Refreshes(log) < |refreshes| && e.got == refreshes[Refreshes(log)]
    ensures ComesFrom(log + [e], unit, cap, replies, refreshes)
    ensures LastOf(log + [e]) ==
      if e.Sent? then (if e.verdict == Challenged then ChallengeError else OtherError) else LastOf(log)
    ensures Sends(log + [e]) == Sends(log) + if e.Sent? then 1 else 0
    ensures Refreshes(log + [e]) == Refreshes(log) + if e.Refreshed? then 1 else 0
  {
    hide Classify, ReadAs;
    var next := log + [e];
    Counted(log, e);
    assert next[..|log|] == log;
    if e.Sent? { ReadIsClassified(replies[Sends(log)], unit, cap, e.verdict); }
    forall i | 0 <= i < |next| ensures Sourced(next, i, unit, cap, replies, refreshes) {
      if i < |log| {
        assert Sourced(log, i, unit, cap, replies, refreshes);
        assert next[..i] == log[..i] && next[i] == log[i];
      }
    }
  }

  lemma RoundSourced(start: seq<Event>, config: Config, cookies: string, verdict: Verdict, reaction: Option<Event>,
                     unit: bool, replies: seq<Reply>, refreshes: seq<Option<string>>)
    requires ComesFrom(start, unit, config.retryAfterCap, replies, refreshes) && Sends(start) < |replies|
    requires verdict == Classify(replies[Sends(start)], unit, config.retryAfterCap)
    requires reaction.Some? ==> !reaction.value.Sent?
    requires reaction.Some? && reaction.value.Refreshed? ==>
      Refreshes(start) < |refreshes| && reaction.value.got == refreshes[Refreshes(start)]
    ensures var next := start + RoundOf(config, cookies, verdict, reaction);
      && ComesFrom(next, unit, config.retryAfterCap, replies, refreshes)
      && LastOf(next) == if verdict == Challenged then ChallengeError else OtherError
  {
    hide ComesFrom, Classify, LastOf, Sends, Refreshes;
    var cap, log := config.retryAfterCap, start;
    if config.governed {
      SourcedPush(log, Acquired, unit, cap, replies, refreshes);
      log := log + [Acquired];
    }
    SourcedPush(log, Sent(cookies, verdict), unit, cap, replies, refreshes);
    log := log + [Sent(cookies, verdict)];
    if reaction.Some? {
      SourcedPush(log, reaction.value, unit, cap, replies, refreshes);
      log := log + [reaction.value];
    }
    assert log == start + RoundOf(config, cookies, verdict, reaction);
  }

  // ---------------------------------------------------------------- what a challenge leads to

  /** The challenge at `i` was answered by a refresh of the session it rejected, which was still allowed. */
  predicate RefreshedAt(log: seq<Event>, i: nat, config: Config)
    requires i < |log|
  {
    log[i].Sent? && log[i].verdict == Challenged ==>
      && !config.noBrowser && Successes(log[..i]) == 0 && Refreshes(log[..i]) < config.challengeRetries
      && i + 1 < |log| && log[i + 1].Refreshed? && log[i + 1].rejected == log[i].cookies
  }

  /** A challenge that ends the loop: nothing but the browser comes after it, and a rejection if the
      session was fresh. */
  predicate EndsAt(log: seq<Event>, i: nat, config: Config)
    requires i < |log|
  {
    && log[i].Sent? && log[i].verdict == Challenged
    && var after := if !config.noBrowser && Successes(log[..i]) > 0 then [Rejected(log[i].cookies)] else [];
       && (config.noBrowser || Successes(log[..i]) > 0 || Refreshes(log[..i]) >= config.challengeRetries)
       && (log[i + 1..] == after
           || (!config.noBrowser && |log| == i + 2 + |after| && log[i + 1..|log| - 1] == after
               && log[|log| - 1].Fetched?))
  }

  ghost predicate RefreshedUpTo(log: seq<Event>, n: nat, config: Config)
    requires n <= |log|
  {
    forall i :: 0 <= i < n ==> RefreshedAt(log, i, config)
  }

  /** Every challenge was answered by a refresh, except perhaps one that ended the loop. */
  ghost predicate ChallengesAnswered(log: seq<Event>, config: Config) {
    RefreshedUpTo(log, |log|, config) || HaltsAt(log, config)
  }

  ghost predicate HaltsAt(log: seq<Event>, config: Config) {
    exists k: nat :: k < |log| && EndsAt(log, k, config) && RefreshedUpTo(log, k, config)
  }

  lemma RefreshedMore(log: seq<Event>, tail: seq<Event>, n: nat, config: Config)
    requires n <= |log| && RefreshedUpTo(log, n, config)
    ensures RefreshedUpTo(log + tail, n, config)
  {
    var next := log + tail;
    forall i | 0 <= i < n ensures RefreshedAt(next, i, config) {
      assert RefreshedAt(log, i, config) && next[..i] == log[..i];
    }
  }

  /** A round after which the loop goes on. */
  lemma RoundRefreshed(start: seq<Event>, config: Config, cookies: string, verdict: Verdict, reaction: Option<Event>)
    requires RefreshedUpTo(start, |start|, config) && (reaction.Some? ==> !reaction.value.Sent?)
    requires verdict == Challenged ==>
      && !config.noBrowser && Successes(start) == 0 && Refreshes(start) < config.challengeRetries
      && reaction.Some? && reaction.value.Refreshed? && reaction.value.rejected == cookies
    ensures var next := start + RoundOf(config, cookies, verdict, reaction); RefreshedUpTo(next, |next|, config)
  {
    hide Successes, Refreshes;
    var round := RoundOf(config, cookies, verdict, reaction);
    var next := start + round;
    RefreshedMore(start, round, |start|, config);
    forall i | |start| <= i < |next| ensures RefreshedAt(next, i, config) {
      if next[i].Sent? { SlotCountsNothing(start, config, next, i); }
    }
  }

  /** The slot before a request changes no count. */
  lemma SlotCountsNothing(start: seq<Event>, config: Config, next: seq<Event>, i: nat)
    requires |start| <= i < |next| && start <= next
    requires if config.governed then i == |start| + 1 && next[|start|] == Acquired else i == |start|
    ensures Successes(next[..i]) == Successes(start) && Refreshes(next[..i]) == Refreshes(start)
  {
    if config.governed {
      assert next[..i] == start + [Acquired];
      Counted(start, Acquired);
    } else {
      assert next[..i] == start;
    }
  }

  /** A round that ends the loop with a challenge. */
  lemma RoundEnds(start: seq<Event>, config: Config, cookies: string, reaction: Option<Event>)
    requires RefreshedUpTo(start, |start|, config)
    requires config.noBrowser || Successes(start) > 0 || Refreshes(start) >= config.challengeRetries
    requires reaction == if !config.noBrowser && Successes(start) > 0 then Some(Rejected(cookies)) else None
    ensures HaltsAt(start + RoundOf(config, cookies, Challenged, reaction), config)
  {
    hide Successes, Refreshes;
    var next := start + RoundOf(config, cookies, Challenged, reaction);
    var k := |start| + if config.governed then 1 else 0;
    SlotCountsNothing(start, config, next, k);
    RefreshedMore(start, RoundOf(config, cookies, Challenged, reaction), |start|, config);
    assert next[k + 1..] == if reaction.Some? then [reaction.value] else [];
    assert EndsAt(next, k, config) && RefreshedUpTo(next, k, config);
  }

  lemma BrowserAfterHalt(log: seq<Event>, config: Config, browser: Fetch)
    requires HaltsAt(log, config) && !config.noBrowser && (log != [] ==> !log[|log| - 1].Fetched?)
    ensures HaltsAt(log + [Fetched(browser)], config)
  {
    hide Successes, Refreshes;
    var k: nat :| k < |log| && EndsAt(log, k, config) && RefreshedUpTo(log, k, config);
    var next := log + [Fetched(browser)];
    RefreshedMore(log, [Fetched(browser)], k, config);
    assert next[..k] == log[..k] && next[k + 1..|next| - 1] == log[k + 1..];
    assert EndsAt(next, k, config);
  }

  lemma BrowserAnswers(log: seq<Event>, config: Config, browser: Fetch)
    requires ChallengesAnswered(log, config) && !config.noBrowser && (log != [] ==> !log[|log| - 1].Fetched?)
    ensures ChallengesAnswered(log + [Fetched(browser)], config)
  {
    hide Successes, Refreshes, EndsAt;
    if HaltsAt(log, config) {
      BrowserAfterHalt(log, config, browser);
    } else {
      RefreshedMore(log, [Fetched(browser)], |log|, config);
    }
  }

  /** The session of one worker. */
  class SessionManager {
    var cookies: string

    constructor (cookies: string)
      ensures this.cookies == cookies
    {
      this.cookies := cookies;
    }

    /** `replies` and `refreshes` are what the network and the shared session answer, in turn. */
    method GetResponse(config: Config, unit: bool, catalog: bool, replies: seq<Reply>, refreshes: seq<Option<string>>,
                       browser: Fetch)
        returns (r: Outcome, log: seq<Event>)
      requires |replies| > config.maxRetries && |refreshes| >= config.challengeRetries
      modifies this
      ensures Finished(r, log, config)
      ensures ComesFrom(log, unit, config.retryAfterCap, replies, refreshes)
      ensures r.GaveUp? ==> r.last == LastOf(log)
      ensures ChallengesAnswered(log, config)
      ensures log != [] && log[|log| - 1].Fetched? ==> catalog && log[|log| - 1] == Fetched(browser)
      ensures r.GaveUp? && r.last == ChallengeError && catalog && !config.noBrowser ==>
        log != [] && log[|log| - 1] == Fetched(browser) && browser == NoPage
      ensures Successes(log) <= 1 && Sends(log) <= config.maxRetries + Successes(log)
      ensures Refreshes(log) <= config.challengeRetries
      ensures Successes(log) == 0 ==> cookies == old(cookies)
      ensures r.GaveUp? && Sends(log) < config.maxRetries + Successes(log) ==>
        r.last.ChallengeError? && (config.noBrowser || Successes(log) == 1 || Refreshes(log) == config.challengeRetries)
    {
      hide Ordered, NoneStopping, AllAnswered, Open, Sends, Refreshes, Successes;
      log := [];
      Nothing(config, cookies);
      assert LastOf(log) == NoError;
      assert RefreshedUpTo(log, 0, config);
      hide LastOf, ComesFrom, RefreshedUpTo, HaltsAt;
      var p := Progress(0, 0, 0, NoError);
      while p.attempt < config.maxRetries
        invariant Underway(p, log, config, cookies) && (p.successes == 0 ==> cookies == old(cookies))
        invariant ComesFrom(log, unit, config.retryAfterCap, replies, refreshes) && p.last == LastOf(log)
        invariant RefreshedUpTo(log, |log|, config)
        decreases config.maxRetries - p.attempt + 1 - p.successes
      {
        var ended, halt;
        p, log, ended, halt := Round(config, unit, p, log, replies, refreshes);
        if ended.Some? { return ended.value, log; }
        if halt { break; }
      }
      r, log := Fallback(config, catalog, browser, p, log, unit, replies, refreshes);
    }

    /** What the loop does about a reply that does not end it. */
    method React(config: Config, p: Progress, verdict: Verdict, refreshes: seq<Option<string>>)
        returns (q: Progress, reaction: Option<Event>, halt: bool)
      requires |refreshes| >= config.challengeRetries && p.attempt < config.maxRetries && p.successes <= 1
      requires !Stopping(Sent(cookies, verdict))
      modifies this
      ensures Reacts(config, old(cookies), verdict, reaction)
      ensures var renewed := reaction.Some? && reaction.value.Refreshed? && reaction.value.got.Some?;
        && (if renewed then reaction.value.got.value == cookies else cookies == old(cookies))
        && q.successes == p.successes + (if renewed then 1 else 0)
        && q.attempt == p.attempt + (if renewed then 0 else 1)
      ensures reaction.Some? && reaction.value.Refreshed? ==>
        p.successes == 0 && p.failures < config.challengeRetries && reaction.value.got == refreshes[p.failures]
          && (reaction.value.got.None? ==> q.failures == p.failures + 1)
      ensures !(reaction.Some? && reaction.value.Refreshed?) ==> q.failures == p.failures
      ensures verdict.Challenged? ==>
        (halt <==> config.noBrowser || p.successes > 0 || p.failures >= config.challengeRetries)
      ensures verdict.Challenged? && halt ==>
        reaction == if !config.noBrowser && p.successes > 0 then Some(Rejected(old(cookies))) else None
      ensures verdict.Challenged? && !halt ==> reaction == Some(Refreshed(old(cookies), refreshes[p.failures]))
      ensures q.last == if verdict.Challenged? then ChallengeError else OtherError
      ensures verdict.Challenged? && reaction.Some? ==> Blocked(reaction.value) || Renewal(reaction.value, cookies)
      ensures halt ==> verdict.Challenged? && !(reaction.Some? && reaction.value.Refreshed?)
      ensures halt ==> config.noBrowser || q.successes == 1 || q.failures >= config.challengeRetries
    {
      q, reaction, halt := p.(attempt := p.attempt + 1, last := OtherError), None, false;
      match verdict {
        case Limited(seconds) =>
          if config.governed { reaction := Some(Throttled(seconds)); }
        case Unreachable => reaction := Some(Rebuilt);
        case Failed =>
        case Challenged =>
          reaction, halt := OnChallenge(config, p.failures, p.successes, refreshes);
          q := q.(last := ChallengeError);
          if reaction.Some? && reaction.value.Refreshed? {
            if reaction.value.got.None? {
              q := q.(failures := q.failures + 1);
            } else {
              q := q.(failures := 0, successes := q.successes + 1, attempt := q.attempt - 1);
            }
          }
      }
    }

    /** One turn of the loop: acquire a slot, send, and react to the reply. */
    method Round(config: Config, unit: bool, p: Progress, sofar: seq<Event>, replies: seq<Reply>,
                 refreshes: seq<Option<string>>)
        returns (q: Progress, log: seq<Event>, ended: Option<Outcome>, halt: bool)
      requires |replies| > config.maxRetries && |refreshes| >= config.challengeRetries
      requires Underway(p, sofar, config, cookies) && p.attempt < config.maxRetries
      requires ComesFrom(sofar, unit, config.retryAfterCap, replies, refreshes)
      requires RefreshedUpTo(sofar, |sofar|, config)
      modifies this
      ensures if ended.None? && halt then HaltsAt(log, config) else RefreshedUpTo(log, |log|, config)
      ensures ComesFrom(log, unit, config.retryAfterCap, replies, refreshes)
      ensures ended.None? ==> q.last == LastOf(log)
      ensures q.successes == 0 ==> p.successes == 0 && cookies == old(cookies)
      ensures Sends(log) == q.attempt + q.successes && q.attempt <= config.maxRetries
      ensures Successes(log) == q.successes <= 1 && Refreshes(log) <= config.challengeRetries
      ensures ended.Some? ==> Finished(ended.value, log, config) && ended.value in {Got, NotFound, RedirectRefused}
      ensures ended.None? ==> Underway(q, log, config, cookies)
      ensures ended.None? ==> config.maxRetries - q.attempt - q.successes < config.maxRetries - p.attempt - p.successes
      ensures ended.None? && halt ==> log != [] && !Renewal(log[|log| - 1], cookies)
      ensures ended.None? && halt ==>
        q.last.ChallengeError? && (config.noBrowser || q.successes == 1 || Refreshes(log) == config.challengeRetries)
    {
      hide Ordered, NoneStopping, AllAnswered, Open, Sends, Refreshes, Successes, RoundOf, Follows, Classify, ComesFrom,
           LastOf, RefreshedUpTo, HaltsAt;
      ghost var sent := cookies;
      ended, halt := None, false;
      var verdict;
      log, verdict := Send(config, unit, sofar, replies[p.attempt + p.successes]);
      q := p.(attempt := p.attempt + 1);
      if Stopping(Sent(cookies, verdict)) {
        Plain(config, cookies, verdict);
        Advance(sofar, config, sent, verdict, None, cookies);
        RoundSourced(sofar, config, sent, verdict, None, unit, replies, refreshes);
        RoundRefreshed(sofar, config, sent, verdict, None);
        Closed(log, config, cookies);
        ended := Some(if verdict.Page? then Got else if verdict.Missing? then NotFound else RedirectRefused);
        return;
      }
      var reaction;
      q, reaction, halt := React(config, p, verdict, refreshes);
      if reaction.Some? {
        Joined(sofar, config, sent, verdict, reaction.value);
        log := log + [reaction.value];
      }
      Advance(sofar, config, sent, verdict, reaction, cookies);
      RoundSourced(sofar, config, sent, verdict, reaction, unit, replies, refreshes);
      if halt {
        RoundEnds(sofar, config, sent, reaction);
      } else {
        RoundRefreshed(sofar, config, sent, verdict, reaction);
      }
    }

    /** One wire request, in its own slot. */
    method Send(config: Config, unit: bool, sofar: seq<Event>, reply: Reply) returns (log: seq<Event>, verdict: Verdict)
      ensures verdict == Classify(reply, unit, config.retryAfterCap)
      ensures log == sofar + RoundOf(config, cookies, verdict, None)
    {
      log := sofar;
      if config.governed { log := log + [Acquired]; }
      verdict := Classify(reply, unit, config.retryAfterCap);
      log := log + [Sent(cookies, verdict)];
    }

    /** A challenge: give up, reject a session that was fresh, or refresh. */
    method OnChallenge(config: Config, failures: nat, successes: nat, refreshes: seq<Option<string>>)
        returns (reaction: Option<Event>, halt: bool)
      requires |refreshes| >= config.challengeRetries
      modifies this
      ensures halt <==> config.noBrowser || successes > 0 || failures >= config.challengeRetries
      ensures halt ==> cookies == old(cookies)
      ensures halt ==> reaction == if !config.noBrowser && successes > 0 then Some(Rejected(cookies)) else None
      ensures !halt ==> reaction == Some(Refreshed(old(cookies), refreshes[failures]))
      ensures !halt ==> cookies == if refreshes[failures].Some? then refreshes[failures].value else old(cookies)
    {
      if config.noBrowser { return None, true; }
      if successes > 0 { return Some(Rejected(cookies)), true; }
      if failures >= config.challengeRetries { return None, true; }
      var got := refreshes[failures];
      reaction, halt := Some(Refreshed(cookies, got)), false;
      if got.Some? { cookies := got.value; }
    }

    /** After the loop: a catalog page that ended in a challenge is tried once with the browser. */
    method Fallback(config: Config, catalog: bool, browser: Fetch, p: Progress, sofar: seq<Event>, ghost unit: bool,
                    ghost replies: seq<Reply>, ghost refreshes: seq<Option<string>>)
        returns (r: Outcome, log: seq<Event>)
      requires Underway(p, sofar, config, cookies)
      requires sofar != [] ==> !Renewal(sofar[|sofar| - 1], cookies)
      requires ComesFrom(sofar, unit, config.retryAfterCap, replies, refreshes) && p.last == LastOf(sofar)
      requires ChallengesAnswered(sofar, config)
      ensures Finished(r, log, config) && (r.GaveUp? ==> r.last == LastOf(log))
      ensures ComesFrom(log, unit, config.retryAfterCap, replies, refreshes)
      ensures ChallengesAnswered(log, config)
      ensures !config.noBrowser && p.last.ChallengeError? && catalog ==> log == sofar + [Fetched(browser)]
      ensures r.GaveUp? && log != [] && log[|log| - 1].Fetched? ==> browser == NoPage
      ensures Sends(log) == Sends(sofar) && Refreshes(log) == Refreshes(sofar) && Successes(log) == Successes(sofar)
      ensures log == sofar
        || (!config.noBrowser && p.last.ChallengeError? && catalog && log == sofar + [Fetched(browser)])
    {
      hide Ordered, AllAnswered, Open, Sends, Refreshes, Successes;
      r, log := GaveUp(p.last), sofar;
      Closed(log, config, cookies);
      if !config.noBrowser && p.last.ChallengeError? && catalog {
        LastStep(log, Fetched(browser), config);
        Push(log, Fetched(browser), config);
        SourcedPush(log, Fetched(browser), unit, config.retryAfterCap, replies, refreshes);
        BrowserAnswers(log, config, browser);
        assert (log + [Fetched(browser)])[..|log|] == log;
        log := log + [Fetched(browser)];
        if browser.OffPage? { return BrowserLeftPage, log; }
        if browser.FetchedPage? { return GotByBrowser, log; }
      }
    }
  }

  /** The counters of the loop. */
  datatype Progress = Progress(attempt: nat, failures: nat, successes: nat, last: LastError)

  /** Between two rounds.  After a successful refresh there is an attempt left to use it. */
  predicate Underway(p: Progress, log: seq<Event>, config: Config, cookies: string) {
    && Ordered(log, config) && NoneStopping(log) && Open(log, config, cookies)
    && p.attempt <= config.maxRetries && Sends(log) == p.attempt + p.successes
    && Successes(log) == p.successes <= 1 && Refreshes(log) <= config.challengeRetries
    && (p.successes == 0 ==> p.failures == Refreshes(log))
    && (log != [] && Renewal(log[|log| - 1], cookies) ==> p.attempt < config.maxRetries)
    && (log != [] ==> !log[|log| - 1].Fetched?)
    && (p.last.ChallengeError? ==> log != [] && (Blocked(log[|log| - 1]) || Renewal(log[|log| - 1], cookies)))
  }

  /** How a log ends, by outcome. */
  predicate Finished(r: Outcome, log: seq<Event>, config: Config) {
    && Ordered(log, config) && AllAnswered(log, config)
    && (log != [] ==> NoneStopping(log[..|log| - 1]))
    && match r
       case Got => log != [] && log[|log| - 1].Sent? && log[|log| - 1].verdict.Page?
       case NotFound => log != [] && log[|log| - 1].Sent? && log[|log| - 1].verdict.Missing?
       case RedirectRefused => log != [] && log[|log| - 1].Sent? && log[|log| - 1].verdict.Refused?
       case GotByBrowser => log != [] && log[|log| - 1] == Fetched(FetchedPage)
       case BrowserLeftPage => log != [] && log[|log| - 1] == Fetched(OffPage)
       case GaveUp(_) =>
         log != [] ==> !Stopping(log[|log| - 1]) && (log[|log| - 1].Fetched? ==> log[|log| - 1].result.NoPage?)
  }

  function RoundOf(config: Config, cookies: string, verdict: Verdict, reaction: Option<Event>): seq<Event> {
    (if config.governed then [Acquired] else []) + [Sent(cookies, verdict)]
      + if reaction.Some? then [reaction.value] else []
  }

  lemma Closed(log: seq<Event>, config: Config, cookies: string)
    requires Open(log, config, cookies)
    requires log != [] ==> !Renewal(log[|log| - 1], cookies)
    ensures AllAnswered(log, config)
  {
  }

  lemma Joined(start: seq<Event>, config: Config, cookies: string, verdict: Verdict, e: Event)
    ensures start + RoundOf(config, cookies, verdict, None) + [e] == start + RoundOf(config, cookies, verdict, Some(e))
  {
  }

  lemma Plain(config: Config, cookies: string, verdict: Verdict)
    requires Stopping(Sent(cookies, verdict))
    ensures Reacts(config, cookies, verdict, None)
  {
  }

  predicate Reacts(config: Config, cookies: string, verdict: Verdict, reaction: Option<Event>) {
    match reaction
    case None => !verdict.Unreachable? && (config.governed ==> !verdict.Limited?)
    case Some(e) => !e.Sent? && !e.Fetched? && !e.Acquired? && Follows(Some(Sent(cookies, verdict)), e, config)
  }

  lemma RoundAnswered(config: Config, cookies: string, verdict: Verdict, reaction: Option<Event>, after: string)
    requires Reacts(config, cookies, verdict, reaction)
    requires reaction.Some? && reaction.value.Refreshed? && reaction.value.got.Some? ==>
      reaction.value.got.value == after
    ensures Starts(RoundOf(config, cookies, verdict, reaction), config, cookies)
    ensures Open(RoundOf(config, cookies, verdict, reaction), config, after)
  {
    var round := RoundOf(config, cookies, verdict, reaction);
    var k := if config.governed then 1 else 0;
    assert round[k] == Sent(cookies, verdict);
    assert reaction.Some? ==> round[k + 1] == reaction.value && round[k + 1..][0] == reaction.value;
  }

  lemma Advance(start: seq<Event>, config: Config, cookies: string, verdict: Verdict, reaction: Option<Event>,
                after: string)
    requires Ordered(start, config) && NoneStopping(start) && Open(start, config, cookies)
    requires Reacts(config, cookies, verdict, reaction)
    requires reaction.Some? && reaction.value.Refreshed? && reaction.value.got.Some? ==>
      reaction.value.got.value == after
    ensures var next := start + RoundOf(config, cookies, verdict, reaction);
      && Ordered(next, config) && Open(next, config, after)
      && next != [] && next[|next| - 1] == (if reaction.Some? then reaction.value else Sent(cookies, verdict))
      && (!Stopping(Sent(cookies, verdict)) ==> NoneStopping(next)) && NoneStopping(next[..|next| - 1])
      && Sends(next) == Sends(start) + 1
      && Refreshes(next) == Refreshes(start) + (if reaction.Some? && reaction.value.Refreshed? then 1 else 0)
      && Successes(next) == Successes(start) +
           (if reaction.Some? && reaction.value.Refreshed? && reaction.value.got.Some? then 1 else 0)
  {
    hide Open, Ordered, NoneStopping, Sends, Refreshes, Successes;
    var round := RoundOf(config, cookies, verdict, reaction);
    RoundAnswered(config, cookies, verdict, reaction, after);
    NextRound(start, round, config, cookies, after);
    var log := start;
    if config.governed {
      Push(log, Acquired, config);
      log := log + [Acquired];
    }
    Push(log, Sent(cookies, verdict), config);
    assert (log + [Sent(cookies, verdict)])[..|log|] == log;
    log := log + [Sent(cookies, verdict)];
    if reaction.Some? {
      Push(log, reaction.value, config);
      log := log + [reaction.value];
    }
    assert log == start + round;
    if !Stopping(Sent(cookies, verdict)) { Shorter(log); }
  }

  lemma Shorter(log: seq<Event>)
    requires NoneStopping(log) && log != []
    ensures NoneStopping(log[..|log| - 1])
  {
  }

  lemma Nothing(config: Config, cookies: string)
    ensures Ordered([], config) && NoneStopping([]) && Open([], config, cookies)
    ensures Sends([]) == Refreshes([]) == Successes([]) == 0
  {
  }

  // ---------------------------------------------------------------- what every log says

  function Slots(log: seq<Event>): nat {
    if log == [] then 0 else Slots(log[..|log| - 1]) + if log[|log| - 1].Acquired? then 1 else 0
  }

  /** Requests are paid for one by one: there are never more requests than slots. */
  lemma {:induction false} EveryRequestHasItsSlot(log: seq<Event>, config: Config)
    requires Ordered(log, config) && config.governed
    ensures Sends(log) <= Slots(log)
  {
    if log != [] {
      var n := |log| - 1;
      assert Follows(Before(log, n), log[n], config);
      if log[n].Sent? {
        hide Ordered, Follows;
        assert log[n - 1] == Acquired && log[..n][..n - 1] == log[..n - 1];
        OrderedPrefix(log, n - 1, config);
        EveryRequestHasItsSlot(log[..n - 1], config);
      } else {
        OrderedPrefix(log, n, config);
        EveryRequestHasItsSlot(log[..n], config);
      }
    }
  }

  lemma OrderedPrefix(log: seq<Event>, n: nat, config: Config)
    requires Ordered(log, config) && n <= |log|
    ensures Ordered(log[..n], config)
  {
    hide Follows;
    forall i | 0 <= i < n ensures Follows(Before(log[..n], i), log[..n][i], config) {
      assert Before(log[..n], i) == Before(log, i) && log[..n][i] == log[i];
    }
  }

  /** What every event of a log stands behind. */
  lemma EventsHaveCauses(log: seq<Event>, config: Config, i: nat)
    requires Ordered(log, config) && i < |log|
    ensures log[i].Sent? && config.governed ==> i > 0 && log[i - 1] == Acquired
    ensures log[i].Refreshed? ==> !config.noBrowser && i > 0 && log[i - 1] == Sent(log[i].rejected, Challenged)
    ensures log[i].Rejected? ==> i > 0 && log[i - 1] == Sent(log[i].version, Challenged)
    ensures log[i].Throttled? ==> i > 0 && log[i - 1].Sent? && log[i - 1].verdict == Limited(log[i].seconds)
    ensures log[i] == Rebuilt ==> i > 0 && log[i - 1].Sent? && log[i - 1].verdict == Unreachable
    ensures log[i].Fetched? ==>
      && !config.noBrowser && i > 0
      && (log[i - 1].Rejected? || (log[i - 1].Sent? && log[i - 1].verdict == Challenged)
          || (log[i - 1].Refreshed? && log[i - 1].got == None))
  {
    assert Follows(Before(log, i), log[i], config);
  }

  /** What every request of a finished call is followed by. */
  lemma RequestsHaveAnswers(r: Outcome, log: seq<Event>, config: Config, i: nat)
    requires Finished(r, log, config) && i < |log| && log[i].Sent?
    ensures log[i].verdict.Limited? && config.governed ==>
      i + 1 < |log| && log[i + 1] == Throttled(log[i].verdict.seconds)
    ensures log[i].verdict == Unreachable ==> i + 1 < |log| && log[i + 1] == Rebuilt
    ensures log[i].verdict in {Page, Missing, Refused} ==> i == |log| - 1
  {
    assert Answered(log[i], log[i + 1..], config);
    assert i + 1 < |log| ==> log[i + 1..][0] == log[i + 1];
    if i < |log| - 1 { assert log[..|log| - 1][i] == log[i] && log[i] in log[..|log| - 1]; }
  }

  /** A refreshed session is sent to the site at least once, before the call can end. */
  lemma RefreshedSessionIsUsed(r: Outcome, log: seq<Event>, config: Config, i: nat)
    requires Finished(r, log, config) && i < |log| && log[i].Refreshed? && log[i].got.Some?
    ensures exists j :: i < j < |log| && log[j].Sent? && log[j].cookies == log[i].got.value
  {
    assert Answered(log[i], log[i + 1..], config);
    var j := if config.governed then i + 2 else i + 1;
    assert log[j] == log[i + 1..][j - i - 1];
  }

  /** A redirect that is refused ends the call without the browser; only a challenge reaches it. */
  lemma BrowserOnlyAfterChallenge(r: Outcome, log: seq<Event>, config: Config)
    requires Finished(r, log, config) && log != [] && log[|log| - 1].Fetched?
    ensures |log| > 1 && Blocked(log[|log| - 2]) && forall e :: e in log && e.Sent? ==> !e.verdict.Refused?
  {
    var n := |log| - 1;
    assert Follows(Before(log, n), log[n], config);
    forall e | e in log && e.Sent? ensures !e.verdict.Refused? {
      var k :| 0 <= k < |log| && log[k] == e;
      assert e in log[..n] by { assert log[..n][k] == e; }
    }
  }

  const BACKOFF_HEARTBEAT := 60.0

  /** The pause after a failed refresh, slept in chunks.  It outlasts the session's own backoff, so
      the next refresh call finds the backoff over. */
  method SleepWithBackoff(attempt: nat, remaining: real) returns (slept: real)
    ensures remaining > 0.0 ==> slept == remaining + 5.0
    ensures remaining <= 0.0 ==> slept >= (REFRESH_RETRY_BACKOFF + 5) as real
    ensures remaining <= 0.0 ==> slept == if attempt <= 3 then 65.0 else (15 * (attempt + 1)) as real
  {
    var least :=
      if REFRESH_RETRY_BACKOFF + 5 > 15 * (attempt + 1) then REFRESH_RETRY_BACKOFF + 5 else 15 * (attempt + 1);
    var wait := if remaining > 0.0 then remaining + 5.0 else least as real;
    ghost var total := wait;
    slept := 0.0;
    while wait > 0.0
      invariant wait >= 0.0 && slept + wait == total
      decreases Chunks(wait)
    {
      var chunk := if wait < BACKOFF_HEARTBEAT then wait else BACKOFF_HEARTBEAT;
      slept := slept + chunk;
      wait := wait - chunk;
    }
  }

  function Chunks(wait: real): int { if wait <= 0.0 then 0 else (wait / 60.0).Floor + 1 }
}
