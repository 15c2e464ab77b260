/**
`crawl_group`: one part group is fetched, checked and written.  Parts and receipt are one block
that is replayed as a whole after a deadlock or a lost connection; in bounded runs the block also
conserves a quota.  Every statement can fail and every commit can lose its answer.
*/
module GroupCrawl {
  import opened Wrappers
  import opened PartStore

  // ---------------------------------------------------------------- what can go wrong

  /** Deadlock or lock timeout, a lost connection, or any other error. */
  datatype Fault = Contention | Lost | Broken

  /** How a commit ends.  A refusal is an error answer of the server; after a loss the caller does
      not know whether the transaction was committed. */
  datatype Answer = Acknowledged | Refused(fault: Fault) | LostBefore | LostAfter

  datatype Attempt = Attempt(insert: Option<Fault>, clear: Option<Fault>, evidence: Option<Fault>,
                             receipt: Option<Fault>, commit: Answer)

  /** One fetched unit page, as the parser and the page checks report it. */
  datatype Page =
    | Missing
    | Page(parts: seq<Part>, malformed: nat, nameless: nat, emptyTable: bool, isUnit: bool)

  /** Everything the environment decides during one call. */
  datatype Weather = Weather(
    resolve: Answer, note: Answer, single: Attempt, stale: Attempt, first: Attempt, second: Attempt, closing: Attempt)

  /** Partial says that the quota cut the group short, OtherUnit is the error of a page that identifies
      another unit. */
  datatype Verdict = Complete | Partial | OtherUnit | Raised(message: string)

  predicate Known(answer: Answer) { answer.Acknowledged? || answer.Refused? }

  function CommitError(answer: Answer): Option<Fault> {
    match answer case Acknowledged => None case Refused(f) => Some(f) case _ => Some(Lost)
  }

  // ---------------------------------------------------------------- when nothing is in the way

  /** Every statement of the block and its commit succeed. */
  predicate Clear(a: Attempt, complete: bool) {
    && a.insert == None && a.evidence == None && a.commit == Acknowledged
    && (complete ==> a.clear == None && a.receipt == None)
  }

  /** The first thing that goes wrong is a deadlock, a lock timeout or a lost connection. */
  predicate Passing(a: Attempt, complete: bool) {
    !Clear(a, complete) &&
    if a.insert.Some? then a.insert != Some(Broken)
    else if complete && a.clear.Some? then a.clear != Some(Broken)
    else if a.evidence.Some? then a.evidence != Some(Broken)
    else if complete && a.receipt.Some? then a.receipt != Some(Broken)
    else a.commit != Refused(Broken)
  }

  /** The block gets through: at once, or replayed after something passing. */
  predicate GetsThrough(first: Attempt, second: Attempt, complete: bool) {
    Clear(first, complete) || (Passing(first, complete) && Clear(second, complete))
  }

  predicate ReceiptGoesThrough(a: Attempt) { a.receipt == None && a.commit == Acknowledged }

  function Eligible(parts: seq<Part>): (chosen: seq<Part>)
    ensures forall p :: p in chosen ==> p in parts
  {
    if parts == [] then [] else
      var n := |parts| - 1;
      assert parts == parts[..n] + [parts[n]];
      Eligible(parts[..n]) + if parts[n].eligible then [parts[n]] else []
  }

  function Unseen(group: int, parts: seq<Part>, seen: set<RowKey>): (rest: seq<Part>)
    ensures forall p :: p in rest ==> p in parts && (group, p.key) !in seen
  {
    if parts == [] then [] else
      var n := |parts| - 1;
      assert parts == parts[..n] + [parts[n]];
      Unseen(group, parts[..n], seen) + if (group, parts[n].key) in seen then [] else [parts[n]]
  }

  lemma {:induction false} EligibleDistinct(parts: seq<Part>)
    requires DistinctKeys(parts)
    ensures DistinctKeys(Eligible(parts))
  {
    if parts != [] {
      var n := |parts| - 1;
      EligibleDistinct(parts[..n]);
      LastDiffers(parts);
      var before := Eligible(parts[..n]);
      forall i | 0 <= i < |before| ensures before[i].key != parts[n].key { assert before[i] in before; }
    }
  }

  lemma LastDiffers(parts: seq<Part>)
    requires DistinctKeys(parts) && parts != []
    ensures forall p :: p in parts[..|parts| - 1] ==> p.key != parts[|parts| - 1].key
  {
    forall p | p in parts[..|parts| - 1] ensures p.key != parts[|parts| - 1].key {
      var i :| 0 <= i < |parts| - 1 && parts[i] == p;
    }
  }

  lemma {:induction false} UnseenDistinct(group: int, parts: seq<Part>, seen: set<RowKey>)
    requires DistinctKeys(parts)
    ensures DistinctKeys(Unseen(group, parts, seen))
  {
    if parts != [] {
      var n := |parts| - 1;
      UnseenDistinct(group, parts[..n], seen);
      LastDiffers(parts);
      var before := Unseen(group, parts[..n], seen);
      forall i | 0 <= i < |before| ensures before[i].key != parts[n].key { assert before[i] in before; }
    }
  }

  /** The store after one call in full mode: untouched, or with one transaction on the group. */
  ghost predicate OneWrite(before: Store, after: Store, group: int, run: int, page: Page) {
    || after == before
    || after == NotFoundStore(before, group, run)
    || (page.Page? && page.parts == [] && after == MarkFetched(before, group, run, Done, 0))
    || (page.Page? && after == Block(before, group, page.parts, run, true, |page.parts|))
  }

  // ---------------------------------------------------------------- one worker

  class Worker {
    const run: int
    /** The formal number of parts of a bounded run. */
    const limit: nat
    var committed: Store
    /** What the open transaction of this worker's connection sees. */
    var working: Store
    var counts: int
    var limitReached: bool
    /** The keys that the last committed full write of a group brought in. */
    ghost var claims: map<int, set<PartKey>>

    constructor (run: int, limit: nat, committed: Store, counts: int)
      ensures this.run == run && this.limit == limit && this.committed == committed && working == committed
        && this.counts == counts && !limitReached && claims == map[]
    {
      this.limit := limit;
      this.run, this.committed, working, this.counts, limitReached := run, committed, committed, counts, false;
      claims := map[];
    }

    /** A statement either takes effect in the transaction or ends the transaction. */
    method Execute(next: Store, fault: Option<Fault>) returns (error: Option<Fault>)
      modifies this`working
      ensures error == fault && working == if fault.None? then next else committed
    {
      working := if fault.None? then next else committed;
      return fault;
    }

    method Commit(answer: Answer) returns (error: Option<Fault>)
      modifies this`committed, this`working
      ensures committed == if answer.Acknowledged? || answer.LostAfter? then old(working) else old(committed)
      ensures working == committed
      ensures error == CommitError(answer)
    {
      if answer.Acknowledged? || answer.LostAfter? { committed := working; } else { working := committed; }
      match answer
      case Acknowledged => return None;
      case Refused(f) => return Some(f);
      case _ => return Some(Lost);
    }

    method Rollback()
      modifies this`working
      ensures working == committed
    {
      working := committed;
    }

    /** One pass over the block, from an empty transaction. */
    method TryBlock(group: int, parts: seq<Part>, complete: bool, count: nat, a: Attempt) returns (error: Option<Fault>)
      requires working == committed
      modifies this`committed, this`working
      ensures working == committed
      ensures committed == old(committed) || committed == Block(old(committed), group, parts, run, complete, count)
      ensures error.None? ==> committed == Block(old(committed), group, parts, run, complete, count)
      ensures error.Some? && (error != Some(Lost) || Known(a.commit)) ==> committed == old(committed)
      ensures (error.None? <==> Clear(a, complete)) && (error.Some? && error != Some(Broken) <==> Passing(a, complete))
    {
      error := Execute(working.(parts := InsertAll(working.parts, group, parts, run)), a.insert);
      if error.Some? { return; }
      if complete {
        error := Execute(working.(parts := ClearStale(working.parts, group, run)), a.clear);
        if error.Some? { return; }
      }
      error := Execute(working, a.evidence);
      if error.Some? { return; }
      if complete {
        error := Execute(MarkFetched(working, group, run, Done, count), a.receipt);
        if error.Some? { return; }
      }
      error := Commit(a.commit);
    }

    /** The block, replayed once after a deadlock or a lost connection.  The counter moves only when
        a commit is acknowledged.  `known` says that no commit was left unanswered. */
    method WriteBlock(group: int, parts: seq<Part>, complete: bool, count: nat, first: Attempt, second: Attempt)
        returns (error: Option<Fault>, ghost known: bool)
      requires working == committed && DistinctKeys(parts)
      modifies this`committed, this`working, this`counts
      ensures working == committed
      ensures committed == old(committed) || committed == Block(old(committed), group, parts, run, complete, count)
      ensures error.None? ==> known && committed == Block(old(committed), group, parts, run, complete, count)
      ensures error.Some? && known ==> committed == old(committed)
      ensures counts == old(counts) + if error.None? then |parts| else 0
      ensures error.None? <==> GetsThrough(first, second, complete)
    {
      hide Block;
      BlockIsIdempotent(committed, group, parts, run, complete, count);
      known := true;
      var attempt := 1;
      while attempt <= 2
        invariant 1 <= attempt <= 2 && working == committed && counts == old(counts)
        invariant committed == old(committed) || committed == Block(old(committed), group, parts, run, complete, count)
        invariant known ==> committed == old(committed)
        invariant attempt == 2 ==> Passing(first, complete)
        decreases 2 - attempt
      {
        var weather := if attempt == 1 then first else second;
        error := TryBlock(group, parts, complete, count, weather);
        if error.None? {
          counts := counts + |parts|;
          known := true;
          return;
        }
        Rollback();
        if error == Some(Lost) && !Known(weather.commit) { known := false; }
        if error != Some(Broken) && attempt == 1 {
          attempt := attempt + 1;
          continue;
        }
        return;
      }
    }

    /** A transaction of one statement that sets a receipt, without replay. */
    method WriteReceipt(next: Store, a: Attempt) returns (error: Option<Fault>)
      requires working == committed
      modifies this`committed, this`working
      ensures working == committed
      ensures committed == old(committed) || committed == next
      ensures error.None? ==> committed == next
      ensures error.Some? && Known(a.commit) ==> committed == old(committed)
      ensures error.None? <==> ReceiptGoesThrough(a)
    {
      error := Execute(next, a.receipt);
      if error.Some? { return; }
      error := Commit(a.commit);
    }

    // -------------------------------------------------------------- full runs: receipts imply parts

    /** Every receipt of this run that says done stands for as many committed part rows of this run
        as it counts, namely for those that its write brought in. */
    ghost predicate Honoured(store: Store)
      reads this`claims
    {
      forall g :: g in store.receipts && store.receipts[g].run == run && store.receipts[g].status.Done? ==>
        g in claims && |claims[g]| == store.receipts[g].count && Holds(store, g, run, claims[g])
    }

    ghost predicate Valid()
      reads this`committed, this`working, this`claims
    {
      working == committed && Honoured(committed)
    }

    method FinishNotFound(group: int, a: Attempt) returns (error: Option<Fault>, ghost known: bool)
      requires working == committed
      modifies this`committed, this`working, this`counts
      ensures working == committed
      ensures var next := NotFoundStore(old(committed), group, run);
        && (committed == old(committed) || committed == next)
        && (error.None? ==> known && committed == next && counts == old(counts) - |Members(old(committed), group, run)|)
        && (error.Some? ==> counts == old(counts) && (known ==> committed == old(committed)))
      ensures error.None? <==> ReceiptGoesThrough(a)
    {
      var removed := |Members(working, group, run)|;
      error := WriteReceipt(NotFoundStore(working, group, run), a);
      known := error.None? || Known(a.commit);
      if error.Some? {
        Rollback();
        return;
      }
      counts := counts - removed;
    }

    /** The checks on a page that come before anything is written for it. */
    method CheckPage(page: Page, prev: nat, ratio: real) returns (problem: Option<Verdict>)
      requires page.Page?
      ensures problem.None? <==> PageFits(page, prev, ratio)
      ensures problem.None? <==>
        && page.malformed == 0 && page.isUnit && (page.parts == [] ==> page.nameless > 0 || page.emptyTable)
        && (prev < 3 || |page.parts| as real >= prev as real * ratio)
      ensures problem.Some? ==> problem.value.OtherUnit? || problem.value.Raised?
      ensures problem == Some(OtherUnit) <==> Misidentified(page, prev, ratio)
    {
      if page.malformed > 0 { return Some(Raised("malformed part rows")); }
      if prev >= 3 && |page.parts| as real < prev as real * ratio { return Some(Raised("row count shrank")); }
      if page.parts == [] && page.nameless == 0 && !page.emptyTable { return Some(Raised("parsed no parts")); }
      if !page.isUnit { return Some(OtherUnit); }
      return None;
    }

    /** `crawl_group` as its caller uses it, in full mode: a page of another unit closes the group like a
        missing page. */
    method VisitFull(group: int, page: Page, already: bool, prev: nat, ratio: real, w: Weather) returns (v: Verdict)
      requires Valid() && (page.Page? ==> DistinctKeys(page.parts))
      modifies this
      ensures Valid() && OneWrite(old(committed), committed, group, run, page)
      ensures !v.OtherUnit?
      ensures v.Complete? && !already && page.Page? ==> PageFits(page, prev, ratio) || Misidentified(page, prev, ratio)
      ensures v.Complete? && !already && page.Page? && Misidentified(page, prev, ratio) ==> Closed(committed, group)
      ensures v.Complete? <==> !old(limitReached) && (already || Fetched(page, prev, ratio, w)
                                                      || ClosedAsOther(page, prev, ratio, w))
    {
      v := CrawlFull(group, page, already, prev, ratio, w);
      if v.OtherUnit? {
        ghost var before := committed;
        var error;
        ghost var known: bool;
        error, known := FinishNotFound(group, w.closing);
        NotFoundKeepsHonoured(before, group);
        v := if error.Some? then Raised("receipt not written") else Complete;
      }
    }

    /** The group has a terminal receipt of this run and none of its rows. */
    predicate Closed(store: Store, group: int) {
      && Members(store, group, run) == {}
      && group in store.receipts && store.receipts[group] == Receipt(run, NotFound, 0)
    }

    method CrawlFull(group: int, page: Page, already: bool, prev: nat, ratio: real, w: Weather) returns (v: Verdict)
      requires Valid() && (page.Page? ==> DistinctKeys(page.parts))
      modifies this
      ensures Valid()
      ensures v.Complete? && !already && page.Page? ==>
        && PageFits(page, prev, ratio)
        && group in committed.receipts && committed.receipts[group] == Receipt(run, Done, |page.parts|)
        && forall p :: p in page.parts ==>
             (group, p.key) in committed.parts && committed.parts[(group, p.key)] == PartRow(p.payload, Some(run))
      ensures v.Complete? && !already && page.Missing? ==>
        Members(committed, group, run) == {}
          && committed.receipts[group := Receipt(run, NotFound, 0)] == committed.receipts
      ensures v.OtherUnit? ==> page.Page? && Misidentified(page, prev, ratio) && committed == old(committed)
      ensures OneWrite(old(committed), committed, group, run, page)
      ensures v.Complete? <==> !old(limitReached) && (already || Fetched(page, prev, ratio, w))
      ensures (v.Partial? <==> old(limitReached)) && limitReached == old(limitReached)
      ensures v.OtherUnit? <==>
        !old(limitReached) && !already && w.resolve == Acknowledged && page.Page? && Misidentified(page, prev, ratio)
    {
      if limitReached { return Partial; }
      if already { return Complete; }
      var error := Commit(w.resolve);
      if error.Some? { return Raised("group could not be registered"); }
      ghost var before := committed;
      if page.Missing? {
        ghost var known: bool;
        error, known := FinishNotFound(group, w.single);
        NotFoundKeepsHonoured(before, group);
        return if error.Some? then Raised("receipt not written") else Complete;
      }
      var problem := CheckPage(page, prev, ratio);
      if problem.Some? {
        // Rows without a name are noted before the failure; the note touches neither table.
        error := Commit(w.note);
        return problem.value;
      }
      if page.parts == [] {
        error := WriteReceipt(MarkFetched(working, group, run, Done, 0), w.single);
        EmptyKeepsHonoured(before, group);
        if committed == MarkFetched(before, group, run, Done, 0) { claims := claims[group := {}]; }
        return if error.Some? then Raised("receipt not written") else Complete;
      }
      ghost var known: bool;
      error, known := WriteBlock(group, page.parts, true, |page.parts|, w.first, w.second);
      BlockKeepsHonoured(before, group, page.parts);
      if committed == Block(before, group, page.parts, run, true, |page.parts|) {
        claims := claims[group := set p | p in page.parts :: p.key];
      }
      BlockHoldsParts(before, group, page.parts, run, |page.parts|);
      return if error.Some? then Raised("parts not written") else Complete;
    }

    // -------------------------------------------------------------- bounded runs: the quota

    /** The counter is the number of committed rows the run owns, and stays within the limit. */
    ghost predicate Balanced()
      reads this`committed, this`working, this`counts
    {
      working == committed && |Owned(committed, run)| == counts && counts <= limit
    }

    /** Releases the rows of the group that the page no longer shows. */
    method ReleaseStale(group: int, stale: set<RowKey>, a: Attempt) returns (error: Option<Fault>, ghost known: bool)
      requires working == committed && stale <= Members(committed, group, run)
      modifies this`committed, this`working, this`counts
      ensures working == committed && (error.None? ==> known)
      ensures known && old(Balanced()) ==> Balanced()
      ensures error.None? ==>
        committed == old(committed).(parts := ClearKeys(old(committed.parts), stale)) && counts == old(counts) - |stale|
      ensures error.None? <==> Releases(stale, a)
    {
      known := true;
      ClearKeysOwned(committed, stale, run);
      MembersOwned(committed, group, run);
      SubsetDifference(Owned(committed, run), stale);
      if stale == {} {
        ClearNothing(committed.parts);
        return None, true;
      }
      error := Execute(working.(parts := ClearKeys(working.parts, stale)), a.clear);
      if error.Some? { return; }
      error := Commit(a.commit);
      known := Known(a.commit);
      if error.Some? { return; }
      counts := counts - |stale|;
    }

    /** Writes what the quota leaves room for; the result says whether the group was cut short. */
    method WriteWithinQuota(group: int, rest: seq<Part>, count: nat, nameless: nat, w: Weather)
        returns (v: Verdict, ghost known: bool)
      requires working == committed && rest != [] && DistinctKeys(rest) && RowKeys(group, rest) !! Owned(committed, run)
      modifies this`committed, this`working, this`counts, this`limitReached
      ensures working == committed && (known && old(Balanced()) ==> Balanced())
      ensures v.Complete? ==>
        counts == old(counts) + |rest| && committed == Block(old(committed), group, rest, run, true, count)
      ensures !v.OtherUnit?
      ensures v.Partial? && old(Balanced()) && known ==> counts == limit && limitReached
      ensures var n := RoomFor(rest, limit, old(counts));
        && (v.Complete? <==> n == |rest| && GetsThrough(w.first, w.second, true))
        && (v.Partial? <==> n < |rest| && (n == 0 || CutGetsThrough(nameless, w)))
        && (v.Partial? ==> counts == old(counts) + n)
        && (v.Partial? ==>
              committed ==
                if n == 0 then old(committed) else Block(old(committed), group, rest[..n], run, false, count))
      ensures limitReached == (old(limitReached) || |rest| >= Room(limit, old(counts)))
    {
      hide Block, Owned, RowKeys, DistinctKeys;
      var remaining := if limit > counts then limit - counts else 0;
      var selected := if |rest| < remaining then |rest| else remaining;
      var complete := selected == |rest|;
      if selected == remaining { limitReached := true; }
      known := true;
      if selected == 0 { return Partial, true; }
      if !complete && nameless > 0 {
        var noted := Commit(w.note);
        if noted.Some? { return Raised("rows not noted"), true; }
      }
      var parts := rest[..selected];
      ghost var before := committed;
      SelectedRows(group, rest, selected);
      RowKeysCount(group, parts);
      BlockOwned(before, group, parts, run, complete, count);
      DisjointSum(Owned(before, run), RowKeys(group, parts));
      var error: Option<Fault>;
      error, known := WriteBlock(group, parts, complete, count, w.first, w.second);
      if error.Some? { return Raised("parts not written"), known; }
      v := if complete then Complete else Partial;
    }

    /** What is left of an accepted page: all its rows are there already, or `rest` is written. */
    method StoreRest(group: int, page: Page, rest: seq<Part>, w: Weather) returns (v: Verdict, ghost known: bool)
      requires working == committed && page.Page? && DistinctKeys(rest) && RowKeys(group, rest) !! Owned(committed, run)
      modifies this`committed, this`working, this`counts, this`limitReached
      ensures working == committed && !v.OtherUnit? && (known && old(Balanced()) ==> Balanced())
      ensures v.Complete? ==>
        && Members(committed, group, run) == Members(old(committed), group, run) + RowKeys(group, rest)
        && group in committed.receipts && committed.receipts[group] == Receipt(run, Done, |page.parts|)
      ensures Stores(old(committed), old(counts), group, page, rest, w, v, committed, counts, limitReached)
    {
      hide Owned, Block, RowKeys, DistinctKeys, Members, CutGetsThrough, GetsThrough, ReceiptGoesThrough, MarkFetched;
      if rest == [] {
        // Everything was written before an interruption: only the receipt is still missing.
        NoRows(group);
        SameMembers(working, group, run, |page.parts|);
        ReceiptMarked(working, group, run, |page.parts|);
        var error := WriteReceipt(MarkFetched(working, group, run, Done, |page.parts|), w.single);
        return if error.Some? then Raised("receipt not written") else Complete, true;
      }
      BlockMembers(committed, group, rest, run, |page.parts|);
      v, known := WriteWithinQuota(group, rest, |page.parts|, page.nameless, w);
    }

    /** An accepted page in bounded mode: stale rows are released, and what is fresh is written. */
    method StoreEligible(group: int, page: Page, w: Weather) returns (v: Verdict, ghost known: bool)
      requires working == committed && page.Page? && DistinctKeys(page.parts) && Eligible(page.parts) != []
      modifies this`committed, this`working, this`counts, this`limitReached
      ensures working == committed && !v.OtherUnit? && (known && old(Balanced()) ==> Balanced())
      ensures v.Complete? ==>
        && Members(committed, group, run) == RowKeys(group, Eligible(page.parts))
        && group in committed.receipts && committed.receipts[group] == Receipt(run, Done, |page.parts|)
      ensures Releases(Stale(old(committed), group, page.parts), w.stale) ==>
        Advances(old(committed), old(counts), group, page, w, v, committed, counts, limitReached)
    {
      hide Owned, ClearKeys, Eligible, Unseen, RowKeys, DistinctKeys, Members, Releases, Stores;
      var error;
      var eligible := Eligible(page.parts);
      EligibleDistinct(page.parts);
      var seen := Members(working, group, run);
      var stale := seen - RowKeys(group, eligible);
      FreshIs(committed, group, page.parts);
      error, known := ReleaseStale(group, stale, w.stale);
      if error.Some? { return Raised("stale rows not released"), known; }
      var left := seen - stale;
      ReleasedMembers(old(committed), group, run, stale);
      UnseenCovers(group, eligible, left);
      var rest := Unseen(group, eligible, left);
      UnseenDistinct(group, eligible, left);
      UnseenIsUnowned(committed, group, run, rest, left);
      v, known := StoreRest(group, page, rest, w);
    }

    method CrawlBounded(group: int, page: Page, already: bool, prev: nat, ratio: real, w: Weather)
        returns (v: Verdict, ghost known: bool)
      requires working == committed && (page.Page? ==> DistinctKeys(page.parts))
      modifies this`committed, this`working, this`counts, this`limitReached
      ensures working == committed
      ensures known && old(Balanced()) ==> Balanced()
      ensures v.Complete? && !already && page.Page? && page.parts != [] ==>
        && Members(committed, group, run) == RowKeys(group, Eligible(page.parts))
        && group in committed.receipts && committed.receipts[group] == Receipt(run, Done, |page.parts|)
      ensures v.Complete? && !already && page.Page? ==> PageFits(page, prev, ratio)
      ensures v.OtherUnit? ==> page.Page? && Misidentified(page, prev, ratio)
      ensures old(limitReached) ==> v == Partial && committed == old(committed) && counts == old(counts)
      ensures !old(limitReached) && already ==> v == Complete && committed == old(committed) && counts == old(counts)
      ensures !old(limitReached) && !already && (page.Missing? || page.parts == []) ==>
        (v.Complete? <==> Fetched(page, prev, ratio, w))
      ensures !old(limitReached) && !already && w.resolve == Acknowledged && page.Page? && page.parts != [] ==>
        && (v.OtherUnit? <==> Misidentified(page, prev, ratio))
        && (PageFits(page, prev, ratio) && Eligible(page.parts) != []
            && Releases(Stale(old(committed), group, page.parts), w.stale) ==>
              Advances(old(committed), old(counts), group, page, w, v, committed, counts, limitReached))
    {
      hide Owned, Block, ClearKeys, Eligible, Unseen, RowKeys, DistinctKeys, Members, PageFits, Advances, Stale;
      known := true;
      if limitReached { return Partial, true; }
      if already { return Complete, true; }
      var error := Commit(w.resolve);
      if error.Some? { return Raised("group could not be registered"), true; }
      if page.Missing? {
        NotFoundOwned(committed, group, run);
        error, known := FinishNotFound(group, w.single);
        return if error.Some? then Raised("receipt not written") else Complete, known;
      }
      var problem := CheckPage(page, prev, ratio);
      if problem.Some? {
        error := Commit(w.note);
        return problem.value, true;
      }
      if page.parts == [] {
        SameMembers(working, group, run, 0);
        error := WriteReceipt(MarkFetched(working, group, run, Done, 0), w.single);
        return if error.Some? then Raised("receipt not written") else Complete, true;
      }
      if Eligible(page.parts) == [] {
        error := Commit(w.note);
        return Raised("all rows failed the quality gate"), true;
      }
      v, known := StoreEligible(group, page, w);
    }

    /** The rows the run owns in the group although no eligible part of the page has their key. */
    function Stale(store: Store, group: int, parts: seq<Part>): set<RowKey> {
      Members(store, group, run) - RowKeys(group, Eligible(parts))
    }

    /** The eligible parts, in page order, that the run does not own yet. */
    function Fresh(store: Store, group: int, parts: seq<Part>): seq<Part> {
      Unseen(group, Eligible(parts), Members(store, group, run))
    }

    /** What a call leaves once the page is accepted and stale rows are released: all fresh parts and the
        receipt, the receipt alone if nothing is fresh, or as many fresh parts as the quota has room for. */
    ghost predicate Advances(before: Store, had: int, group: int, page: Page, w: Weather,
                             v: Verdict, after: Store, has: int, atLimit: bool)
      requires page.Page?
    {
      var stale := Stale(before, group, page.parts);
      Stores(before.(parts := ClearKeys(before.parts, stale)), had - |stale|, group, page,
             Fresh(before, group, page.parts), w, v, after, has, atLimit)
    }

    ghost predicate Stores(released: Store, had: int, group: int, page: Page, rest: seq<Part>, w: Weather,
                           v: Verdict, after: Store, has: int, atLimit: bool)
      requires page.Page?
    {
      var n := RoomFor(rest, limit, had);
      if rest == [] then
        && (v.Complete? <==> ReceiptGoesThrough(w.single))
        && (v.Complete? ==> after == MarkFetched(released, group, run, Done, |page.parts|) && has == had)
      else
        && (v.Complete? <==> n == |rest| && GetsThrough(w.first, w.second, true))
        && (v.Complete? ==> after == Block(released, group, rest, run, true, |page.parts|))
        && (v.Partial? <==> n < |rest| && (n == 0 || CutGetsThrough(page.nameless, w)))
        && (v.Partial? ==> atLimit)
        && (v.Partial? ==>
              after == if n == 0 then released else Block(released, group, rest[..n], run, false, |page.parts|))
        && (v.Complete? || v.Partial? ==> has == had + n)
    }

    /** The fresh parts stand at certain positions of the page, in order, and these are all positions of
        eligible parts that the run does not own. */
    lemma {:induction false} FreshPositions(store: Store, group: int, parts: seq<Part>) returns (at: seq<nat>)
      ensures |at| == |Fresh(store, group, parts)| && (forall k :: 0 <= k < |at| ==> at[k] < |parts|)
      ensures forall k :: 0 <= k < |at| ==> parts[at[k]] == Fresh(store, group, parts)[k]
      ensures forall j, k :: 0 <= j < k < |at| ==> at[j] < at[k]
      ensures forall i: nat :: i in at <==>
        i < |parts| && parts[i].eligible && (group, parts[i].key) !in Members(store, group, run)
    {
      hide Members, Fresh;
      if parts == [] {
        at := [];
        assert Fresh(store, group, []) == [] by { NothingFresh(store, group); }
      } else {
        var n := |parts| - 1;
        at := FreshPositions(store, group, parts[..n]);
        FreshNext(store, group, parts);
        assert forall i: nat :: i < n ==> parts[..n][i] == parts[i];
        if parts[n].eligible && (group, parts[n].key) !in Members(store, group, run) { at := at + [n]; }
      }
    }

    lemma NothingFresh(store: Store, group: int)
      ensures Fresh(store, group, []) == []
    {
    }

    lemma FreshNext(store: Store, group: int, parts: seq<Part>)
      requires parts != []
      ensures var n := |parts| - 1;
        Fresh(store, group, parts) == Fresh(store, group, parts[..n]) +
          if parts[n].eligible && (group, parts[n].key) !in Members(store, group, run) then [parts[n]] else []
    {
      hide Members;
      var n := |parts| - 1;
      var before := Eligible(parts[..n]);
      if parts[n].eligible {
        assert Eligible(parts) == before + [parts[n]] && (before + [parts[n]])[..|before|] == before;
      } else {
        assert before + [] == before;
        assert Fresh(store, group, parts[..n]) + [] == Fresh(store, group, parts[..n]);
      }
    }

    lemma FreshIs(store: Store, group: int, parts: seq<Part>)
      ensures var seen := Members(store, group, run);
        Unseen(group, Eligible(parts), seen - Stale(store, group, parts)) == Fresh(store, group, parts)
    {
      SameUnseen(group, Eligible(parts), Members(store, group, run), Eligible(parts));
    }

    /** `crawl_group` as its caller uses it, in bounded mode: the quota is conserved over the closing of a
        group whose page shows another unit as well. */
    method VisitBounded(group: int, page: Page, already: bool, prev: nat, ratio: real, w: Weather)
        returns (v: Verdict, ghost known: bool)
      requires working == committed && (page.Page? ==> DistinctKeys(page.parts))
      modifies this`committed, this`working, this`counts, this`limitReached
      ensures working == committed
      ensures known && old(Balanced()) ==> Balanced()
      ensures !v.OtherUnit?
      ensures v.Complete? && !already && page.Page? && Misidentified(page, prev, ratio) ==> Closed(committed, group)
      ensures !old(limitReached) && !already && page.Page? && page.parts != [] &&
              ClosedAsOther(page, prev, ratio, w) ==>
        v.Complete?
    {
      hide Owned, Members, DistinctKeys, Eligible, RowKeys, Advances;
      v, known := CrawlBounded(group, page, already, prev, ratio, w);
      if v.OtherUnit? {
        ghost var reached := known;
        NotFoundOwned(committed, group, run);
        NotFoundClears(committed, group, run);
        var error;
        error, known := FinishNotFound(group, w.closing);
        known := known && reached;
        v := if error.Some? then Raised("receipt not written") else Complete;
      }
    }

    lemma NotFoundKeepsHonoured(store: Store, group: int)
      requires Honoured(store)
      ensures Honoured(NotFoundStore(store, group, run))
      ensures Members(NotFoundStore(store, group, run), group, run) == {}
    {
    }

    lemma EmptyKeepsHonoured(store: Store, group: int)
      requires Honoured(store)
      ensures forall g ::
        g != group && g in store.receipts && store.receipts[g].run == run && store.receipts[g].status.Done? ==>
        Holds(MarkFetched(store, group, run, Done, 0), g, run, claims[g])
    {
    }

    /** A block that another run writes leaves every receipt of this run honoured exactly when it replaces
        the group's receipt or writes none of the rows that receipt stands for. */
    lemma OtherRunKeepsHonouredIff(store: Store, group: int, parts: seq<Part>, other: int, complete: bool, count: nat)
      requires Honoured(store) && DistinctKeys(parts) && other != run
      ensures Honoured(Block(store, group, parts, other, complete, count)) <==>
        complete || !HasDone(store, group) || claims[group] !! PartKeys(parts)
    {
      hide InsertAll;
      var after := Block(store, group, parts, other, complete, count);
      forall g, k | g != group && g in claims && k in claims[g]
        ensures (g, k) in after.parts <==> (g, k) in store.parts
        ensures (g, k) in store.parts ==> after.parts[(g, k)] == store.parts[(g, k)]
      {
        BlockLeavesOthers(store, group, parts, other, complete, count, (g, k));
      }
      if !complete && HasDone(store, group) {
        forall k | k in claims[group]
          ensures (group, k) in after.parts && (after.parts[(group, k)].seen == Some(run) <==> k !in PartKeys(parts))
        {
          InsertedAt(store.parts, group, parts, other, (group, k));
          assert k in PartKeys(parts) <==> (group, k) in RowKeys(group, parts);
        }
      }
    }

    predicate HasDone(store: Store, group: int) {
      group in store.receipts && store.receipts[group].run == run && store.receipts[group].status.Done?
    }

    lemma BlockKeepsHonoured(store: Store, group: int, parts: seq<Part>)
      requires Honoured(store) && DistinctKeys(parts)
      ensures forall g ::
        g != group && g in store.receipts && store.receipts[g].run == run && store.receipts[g].status.Done? ==>
        Holds(Block(store, group, parts, run, true, |parts|), g, run, claims[g])
    {
      hide InsertAll;
      forall g | g != group && g in store.receipts && store.receipts[g].run == run && store.receipts[g].status.Done?
        ensures Holds(Block(store, group, parts, run, true, |parts|), g, run, claims[g])
      {
        forall k | k in claims[g]
          ensures (g, k) in Block(store, group, parts, run, true, |parts|).parts
          ensures Block(store, group, parts, run, true, |parts|).parts[(g, k)].seen == Some(run)
        {
          BlockLeavesOthers(store, group, parts, run, true, |parts|, (g, k));
        }
      }
    }
  }

  /** The run owns all these rows of the group. */
  ghost predicate Holds(store: Store, group: int, run: int, keys: set<PartKey>) {
    forall k :: k in keys ==> (group, k) in store.parts && store.parts[(group, k)].seen == Some(run)
  }

  function PartKeys(parts: seq<Part>): set<PartKey> { set p | p in parts :: p.key }

  function NotFoundStore(store: Store, group: int, run: int): Store {
    MarkFetched(store.(parts := ClearKeys(store.parts, Members(store, group, run))), group, run, NotFound, 0)
  }

  lemma NotFoundClears(store: Store, group: int, run: int)
    ensures Members(NotFoundStore(store, group, run), group, run) == {}
  {
  }

  /** Everything is in order except that the page identifies another unit. */
  predicate Misidentified(page: Page, prev: nat, ratio: real)
    requires page.Page?
  {
    !page.isUnit && PageFits(page.(isUnit := true), prev, ratio)
  }

  /** How many more rows the quota has room for. */
  function Room(limit: nat, counts: int): nat { if counts < limit then limit - counts else 0 }

  function RoomFor(rest: seq<Part>, limit: nat, counts: int): (n: nat)
    ensures n <= |rest|
  {
    if |rest| <= Room(limit, counts) then |rest| else Room(limit, counts)
  }

  /** Before a group is cut short, its nameless rows are noted in a transaction of their own. */
  predicate CutGetsThrough(nameless: nat, w: Weather) {
    (nameless > 0 ==> w.note == Acknowledged) && GetsThrough(w.first, w.second, false)
  }

  predicate Releases(stale: set<RowKey>, a: Attempt) {
    stale == {} || (a.clear == None && a.commit == Acknowledged)
  }

  /** Of eligible parts, those not owned are those not owned under a key of the page. */
  lemma {:induction false} SameUnseen(group: int, parts: seq<Part>, seen: set<RowKey>, page: seq<Part>)
    requires forall p :: p in parts ==> p in page
    ensures Unseen(group, parts, seen - (seen - RowKeys(group, page))) == Unseen(group, parts, seen)
  {
    if parts != [] {
      var n := |parts| - 1;
      assert parts == parts[..n] + [parts[n]];
      SameUnseen(group, parts[..n], seen, page);
      assert parts[n] in page;
    }
  }

  /** The group is registered, the page is sound, and what has to be written gets through. */
  predicate Fetched(page: Page, prev: nat, ratio: real, w: Weather) {
    w.resolve == Acknowledged &&
    match page
    case Missing => ReceiptGoesThrough(w.single)
    case Page(parts, _, _, _, _) =>
      PageFits(page, prev, ratio) &&
      if parts == [] then ReceiptGoesThrough(w.single) else GetsThrough(w.first, w.second, true)
  }

  /** The page shows another unit, and the closing of the group gets through. */
  predicate ClosedAsOther(page: Page, prev: nat, ratio: real, w: Weather) {
    w.resolve == Acknowledged && page.Page? && Misidentified(page, prev, ratio) && ReceiptGoesThrough(w.closing)
  }

  predicate PageFits(page: Page, prev: nat, ratio: real)
    requires page.Page?
  {
    && page.malformed == 0 && !(prev >= 3 && |page.parts| as real < prev as real * ratio)
    && (page.parts != [] || page.nameless > 0 || page.emptyTable) && page.isUnit
  }

  lemma KeysSize(parts: seq<Part>)
    requires DistinctKeys(parts)
    ensures |set p | p in parts :: p.key| == |parts|
  {
    if parts != [] {
      var n := |parts| - 1;
      KeysSize(parts[..n]);
      LastDiffers(parts);
      assert parts == parts[..n] + [parts[n]];
      var before := set p | p in parts[..n] :: p.key;
      assert (set p | p in parts :: p.key) == before + {parts[n].key};
    }
  }

  /** A committed full block: receipt, count and rows agree. */
  lemma BlockHoldsParts(store: Store, group: int, parts: seq<Part>, run: int, count: nat)
    requires DistinctKeys(parts)
    ensures var after := Block(store, group, parts, run, true, count);
      && |set p | p in parts :: p.key| == |parts|
      && Holds(after, group, run, set p | p in parts :: p.key)
      && (forall p :: p in parts ==>
            (group, p.key) in after.parts && after.parts[(group, p.key)] == PartRow(p.payload, Some(run)))
      && after.receipts[group := Receipt(run, Done, count)] == after.receipts
  {
    hide InsertAll;
    KeysSize(parts);
    var after := Block(store, group, parts, run, true, count);
    forall p | p in parts
      ensures (group, p.key) in after.parts && after.parts[(group, p.key)] == PartRow(p.payload, Some(run))
    {
      InsertedAt(store.parts, group, parts, run, (group, p.key));
    }
  }

  // ---------------------------------------------------------------- counting rows

  lemma SubsetDifference(a: set<RowKey>, b: set<RowKey>)
    requires b <= a
    ensures |a - b| == |a| - |b|
  {
  }

  lemma DisjointSum(a: set<RowKey>, b: set<RowKey>)
    requires a !! b
    ensures |a + b| == |a| + |b|
  {
  }

  lemma ClearNothing(rows: map<RowKey, PartRow>)
    ensures ClearKeys(rows, {}) == rows
  {
  }

  lemma SelectedRows(group: int, rest: seq<Part>, n: nat)
    requires n <= |rest|
    ensures RowKeys(group, rest[..n]) <= RowKeys(group, rest)
    ensures DistinctKeys(rest) ==> DistinctKeys(rest[..n])
    ensures n == |rest| ==> rest[..n] == rest
  {
  }

  lemma NotFoundOwned(store: Store, group: int, run: int)
    ensures |Owned(NotFoundStore(store, group, run), run)| == |Owned(store, run)| - |Members(store, group, run)|
  {
    ClearKeysOwned(store, Members(store, group, run), run);
    MembersOwned(store, group, run);
    SubsetDifference(Owned(store, run), Members(store, group, run));
    assert Owned(NotFoundStore(store, group, run), run)
        == Owned(store.(parts := ClearKeys(store.parts, Members(store, group, run))), run);
  }

  /** What is not among the members left is not owned at all: rows of a group are its members. */
  lemma UnseenIsUnowned(store: Store, group: int, run: int, rest: seq<Part>, left: set<RowKey>)
    requires Members(store, group, run) <= left && forall p :: p in rest ==> (group, p.key) !in left
    ensures RowKeys(group, rest) !! Owned(store, run)
  {
    forall k | k in RowKeys(group, rest) ensures k !in Owned(store, run) {
      assert k !in Members(store, group, run);
    }
  }

  lemma NoRows(group: int)
    ensures RowKeys(group, []) == {}
  {
  }

  lemma SameMembers(store: Store, group: int, run: int, count: nat)
    ensures Members(MarkFetched(store, group, run, Done, count), group, run) == Members(store, group, run)
    ensures Owned(MarkFetched(store, group, run, Done, count), run) == Owned(store, run)
  {
  }

  lemma ReceiptMarked(store: Store, group: int, run: int, count: nat)
    ensures MarkFetched(store, group, run, Done, count).receipts == store.receipts[group := Receipt(run, Done, count)]
  {
  }

  lemma ReleasedMembers(store: Store, group: int, run: int, stale: set<RowKey>)
    ensures Members(store.(parts := ClearKeys(store.parts, stale)), group, run) == Members(store, group, run) - stale
  {
  }

  lemma {:induction false} UnseenCovers(group: int, parts: seq<Part>, left: set<RowKey>)
    ensures left <= RowKeys(group, parts) ==> left + RowKeys(group, Unseen(group, parts, left)) == RowKeys(group, parts)
  {
    UnseenIs(group, parts, left);
  }

  lemma {:induction false} UnseenIs(group: int, parts: seq<Part>, left: set<RowKey>)
    ensures RowKeys(group, Unseen(group, parts, left)) == RowKeys(group, parts) - left
  {
    hide RowKeys;
    if parts == [] {
      NoRows(group);
    } else {
      var n := |parts| - 1;
      UnseenIs(group, parts[..n], left);
      assert parts == parts[..n] + [parts[n]];
      RowKeysNext(group, parts[..n], parts[n]);
      RowKeysNext(group, Unseen(group, parts[..n], left), parts[n]);
      assert Unseen(group, parts[..n], left) + [] == Unseen(group, parts[..n], left);
    }
  }

  lemma RowKeysNext(group: int, parts: seq<Part>, p: Part)
    ensures RowKeys(group, parts + [p]) == RowKeys(group, parts) + {(group, p.key)}
  {
    assert forall q :: q in parts + [p] <==> q in parts || q == p;
  }

  lemma BlockMembers(store: Store, group: int, parts: seq<Part>, run: int, count: nat)
    requires DistinctKeys(parts)
    ensures Members(Block(store, group, parts, run, true, count), group, run)
         == Members(store, group, run) + RowKeys(group, parts)
    ensures Block(store, group, parts, run, true, count).receipts == store.receipts[group := Receipt(run, Done, count)]
  {
    hide InsertAll;
    var after := Block(store, group, parts, run, true, count);
    forall k ensures k in Members(after, group, run) <==> k in Members(store, group, run) + RowKeys(group, parts) {
      InsertedAt(store.parts, group, parts, run, k);
    }
  }
}
