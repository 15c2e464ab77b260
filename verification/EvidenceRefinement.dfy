/**
The streaming verifier accepts a run exactly when the batch verifier does for a target equal to
the number of source parts, given that every artifact comes from the current scheduler attempt
and the dataset is not empty; and then both seal the same digests and totals.
*/
module EvidenceRefinement {
  import opened Wrappers
  import opened Canonical
  import opened RunEvidence

  // ---------------------------------------------------------------- one order, another order

  lemma {:induction false} RowsOfCount(rows: seq<RecordRow>, artifact: int, r: RecordRow)
    ensures multiset(RowsOf(rows, artifact))[r] == if r.artifact == artifact then multiset(rows)[r] else 0
  {
    if rows != [] {
      assert rows == [rows[0]] + rows[1..];
      RowsOfCount(rows[1..], artifact, r);
    }
  }

  lemma {:induction false} GroupedCount(artifacts: seq<Artifact>, rows: seq<RecordRow>, r: RecordRow)
    requires forall i, j :: 0 <= i < j < |artifacts| ==> artifacts[i].id != artifacts[j].id
    ensures multiset(Grouped(artifacts, rows))[r]
         == if exists a :: a in artifacts && a.id == r.artifact then multiset(rows)[r] else 0
  {
    if artifacts != [] {
      var n := |artifacts| - 1;
      assert artifacts == artifacts[..n] + [artifacts[n]];
      GroupedCount(artifacts[..n], rows, r);
      RowsOfCount(rows, artifacts[n].id, r);
    }
  }

  lemma {:induction false} RowsOfAppend(a: seq<RecordRow>, b: seq<RecordRow>, artifact: int)
    ensures RowsOf(a + b, artifact) == RowsOf(a, artifact) + RowsOf(b, artifact)
  {
    if a == [] {
      assert a + b == b;
    } else {
      assert (a + b)[1..] == a[1..] + b && (a + b)[0] == a[0];
      RowsOfAppend(a[1..], b, artifact);
      var head := if a[0].artifact == artifact then [a[0]] else [];
      assert head + (RowsOf(a[1..], artifact) + RowsOf(b, artifact)) == RowsOf(a, artifact) + RowsOf(b, artifact);
    }
  }

  lemma {:induction false} AcceptedAppend(a: seq<RecordRow>, b: seq<RecordRow>)
    ensures Accepted(a + b) == Accepted(a) + Accepted(b)
  {
    if b == [] {
      assert a + b == a;
    } else {
      var n := |b| - 1;
      assert (a + b)[..|a + b| - 1] == a + b[..n];
      AcceptedAppend(a, b[..n]);
    }
  }

  /** The artifact stream shows every record row exactly once, in another order. */
  lemma GroupedPermutes(db: Db)
    requires Keyed(db)
    ensures multiset(Grouped(db.artifacts, db.records)) == multiset(db.records)
  {
    forall r ensures multiset(Grouped(db.artifacts, db.records))[r] == multiset(db.records)[r] {
      GroupedCount(db.artifacts, db.records, r);
      if r !in db.records { assert r !in multiset(db.records); }
    }
  }

  lemma {:induction false} AcceptedCount(rows: seq<RecordRow>, r: RecordRow)
    ensures multiset(Accepted(rows))[r] == if r.accepted then multiset(rows)[r] else 0
  {
    if rows != [] {
      var n := |rows| - 1;
      assert rows == rows[..n] + [rows[n]];
      AcceptedCount(rows[..n], r);
    }
  }

  lemma AcceptedMember(rows: seq<RecordRow>, r: RecordRow)
    ensures r in Accepted(rows) <==> r in rows && r.accepted
  {
    AcceptedCount(rows, r);
    assert r in Accepted(rows) <==> r in multiset(Accepted(rows));
    assert r in rows <==> r in multiset(rows);
  }

  lemma AcceptedPermutes(a: seq<RecordRow>, b: seq<RecordRow>)
    requires multiset(a) == multiset(b)
    ensures multiset(Accepted(a)) == multiset(Accepted(b)) && |Accepted(a)| == |Accepted(b)|
  {
    forall r ensures multiset(Accepted(a))[r] == multiset(Accepted(b))[r] {
      AcceptedCount(a, r);
      AcceptedCount(b, r);
    }
    assert multiset(Accepted(a)) == multiset(Accepted(b));
    assert |Accepted(a)| == |multiset(Accepted(a))| == |multiset(Accepted(b))|;
  }

  lemma SameMembers(a: seq<RecordRow>, b: seq<RecordRow>)
    requires multiset(a) == multiset(b)
    ensures |a| == |b| && forall r :: r in a <==> r in b
    ensures Keys(a) == Keys(b) && Parents(a) == Parents(b)
    ensures RecordsAccepted(a) <==> RecordsAccepted(b)
  {
    assert |multiset(a)| == |multiset(b)|;
    assert forall r :: r in a <==> r in multiset(a);
    assert forall r :: r in b <==> r in multiset(b);
  }

  /** The dataset digest does not depend on the order in which rows were read. */
  lemma SameDataset(a: seq<RecordRow>, b: seq<RecordRow>)
    requires multiset(a) == multiset(b)
    ensures DatasetPreimage(Evidence(Accepted(a))) == DatasetPreimage(Evidence(Accepted(b)))
  {
    AcceptedPermutes(a, b);
    MappedPermutes((r: RecordRow) => r.record, Accepted(a), Accepted(b));
    DatasetOrderIrrelevant(Evidence(Accepted(a)), Evidence(Accepted(b)));
  }

  // ---------------------------------------------------------------- the part stream

  lemma {:induction false} MatchesMember(rows: seq<RecordRow>, part: int, r: RecordRow)
    ensures r in Matches(rows, part) <==> r in rows && r.accepted && r.partId == Some(part)
  {
    if rows != [] {
      var n := |rows| - 1;
      assert rows == rows[..n] + [rows[n]];
      MatchesMember(rows[..n], part, r);
    }
  }

  lemma SecondRowRepeatsPart(p: SourcePart, matches: seq<RecordRow>, rest: seq<PartRow>)
    requires |PartRows(p, matches)| > 1
    ensures !NoRepeatedPart(PartRows(p, matches) + rest)
  {
    var own := PartRows(p, matches);
    assert own[0] in own && own[1] in own;
    assert (own + rest)[1].part.id == (own + rest)[1 - 1].part.id;
  }

  lemma NoRepeatInTail(first: PartRow, rest: seq<PartRow>)
    requires NoRepeatedPart([first] + rest)
    ensures NoRepeatedPart(rest)
  {
    forall i | 0 < i < |rest| ensures rest[i].part.id != rest[i - 1].part.id {
      assert rest[i] == ([first] + rest)[i + 1] && rest[i - 1] == ([first] + rest)[i];
    }
  }

  /** No two adjacent rows of one part, and none without a record: one record for every part. */
  lemma {:induction false} NoDuplicateMeansOneMatch(parts: seq<SourcePart>, rows: seq<RecordRow>)
    requires NoRepeatedPart(PartStream(parts, rows))
    requires forall row :: row in PartStream(parts, rows) ==> row.accepted.Some?
    ensures forall p :: p in parts ==> |Matches(rows, p.id)| == 1
  {
    if parts != [] {
      var matches := Matches(rows, parts[0].id);
      var own, rest := PartRows(parts[0], matches), PartStream(parts[1..], rows);
      assert parts == [parts[0]] + parts[1..];
      if |own| > 1 { SecondRowRepeatsPart(parts[0], matches, rest); }
      assert own == [own[0]];
      assert own[0] in own + rest;
      NoRepeatInTail(own[0], rest);
      forall row | row in rest ensures row.accepted.Some? { assert row in own + rest; }
      NoDuplicateMeansOneMatch(parts[1..], rows);
    }
  }

  lemma {:induction false} OneMatchMeansOneRow(parts: seq<SourcePart>, rows: seq<RecordRow>)
    requires forall p :: p in parts ==> |Matches(rows, p.id)| == 1
    ensures |PartStream(parts, rows)| == |parts|
    ensures forall i :: 0 <= i < |parts| ==>
              PartStream(parts, rows)[i] == PartRow(parts[i], Some(Matches(rows, parts[i].id)[0]))
  {
    if parts != [] { OneMatchMeansOneRow(parts[1..], rows); }
  }

  // ---------------------------------------------------------------- counting

  lemma {:induction false} SubsetSize<T>(a: set<T>, b: set<T>)
    requires a <= b
    ensures |a| <= |b| && (|a| == |b| ==> a == b)
  {
    if a != {} {
      var x :| x in a;
      SubsetSize(a - {x}, b - {x});
    }
  }

  lemma {:induction false} DistinctIds(parts: seq<SourcePart>)
    requires forall i, j :: 0 <= i < j < |parts| ==> parts[i].id != parts[j].id
    ensures |SourceIds(parts)| == |parts|
  {
    if parts != [] {
      var n := |parts| - 1;
      DistinctIds(parts[..n]);
      assert parts == parts[..n] + [parts[n]];
      assert SourceIds(parts) == SourceIds(parts[..n]) + {parts[n].id};
    }
  }

  lemma {:induction false} PartIdsSize(rows: seq<RecordRow>)
    ensures |PartIds(rows)| <= |rows|
  {
    if rows != [] {
      var n := |rows| - 1;
      PartIdsSize(rows[..n]);
      assert rows == rows[..n] + [rows[n]];
      assert PartIds(rows) == PartIds(rows[..n]) + (if rows[n].partId.Some? then {rows[n].partId.value} else {});
    }
  }

  /** As many accepted rows as accepted part ids: no part is accepted twice. */
  lemma {:induction false} DistinctIdsMatchOnce(rows: seq<RecordRow>, part: int)
    requires |PartIds(Accepted(rows))| == |Accepted(rows)|
    ensures |Matches(rows, part)| <= 1
    ensures part !in PartIds(Accepted(rows)) ==> Matches(rows, part) == []
  {
    if rows != [] {
      var n := |rows| - 1;
      var before, last := rows[..n], rows[n];
      assert rows == before + [last];
      PartIdsSize(Accepted(before));
      if last.accepted {
        assert Accepted(rows) == Accepted(before) + [last];
        assert PartIds(Accepted(rows))
            == PartIds(Accepted(before)) + (if last.partId.Some? then {last.partId.value} else {});
      } else {
        assert Accepted(rows) == Accepted(before);
      }
      DistinctIdsMatchOnce(before, part);
    }
  }

  lemma OnlyMatch(rows: seq<RecordRow>, part: int, r: RecordRow)
    requires |PartIds(Accepted(rows))| == |Accepted(rows)|
    requires r in rows && r.accepted && r.partId == Some(part)
    ensures Matches(rows, part) == [r]
  {
    DistinctIdsMatchOnce(rows, part);
    MatchesMember(rows, part, r);
  }

  /** The pigeonhole step: every source part has an accepted record and there are as many accepted
      records as source parts, so the two id sets are equal and no record is left over. */
  lemma CountsForceEqualSets(parts: seq<SourcePart>, rows: seq<RecordRow>)
    requires forall i, j :: 0 <= i < j < |parts| ==> parts[i].id != parts[j].id
    requires forall p :: p in parts ==> Matches(rows, p.id) != []
    requires |parts| == |Accepted(rows)|
    ensures SourceIds(parts) == PartIds(Accepted(rows))
    ensures |PartIds(Accepted(rows))| == |Accepted(rows)| == |SourceIds(parts)|
  {
    forall id | id in SourceIds(parts) ensures id in PartIds(Accepted(rows)) {
      var p :| p in parts && p.id == id;
      var r := Matches(rows, p.id)[0];
      MatchesMember(rows, p.id, r);
      AcceptedMember(rows, r);
    }
    DistinctIds(parts);
    PartIdsSize(Accepted(rows));
    SubsetSize(SourceIds(parts), PartIds(Accepted(rows)));
  }

  // ---------------------------------------------------------------- the refinement

  /** The rows of both orders agree in everything the verifiers look at. */
  lemma GroupedAgrees(db: Db)
    requires Keyed(db)
    ensures var rows := Grouped(db.artifacts, db.records);
      && Keys(rows) == Keys(db.records)
      && (RecordsAccepted(rows) <==> RecordsAccepted(db.records))
      && |Accepted(rows)| == |Accepted(db.records)|
  {
    GroupedPermutes(db);
    SameMembers(Grouped(db.artifacts, db.records), db.records);
    AcceptedPermutes(Grouped(db.artifacts, db.records), db.records);
  }

  /** What every streamed row satisfies, the only record of every part satisfies. */
  lemma StreamedPartsMatchOnce(parts: seq<SourcePart>, rows: seq<RecordRow>, sound: PartRow -> bool)
    requires NoRepeatedPart(PartStream(parts, rows))
    requires forall row :: row in PartStream(parts, rows) ==> row.accepted.Some? && sound(row)
    ensures |PartStream(parts, rows)| == |parts|
    ensures forall p :: p in parts ==>
              |Matches(rows, p.id)| == 1 && sound(PartRow(p, Some(Matches(rows, p.id)[0])))
  {
    NoDuplicateMeansOneMatch(parts, rows);
    OneMatchMeansOneRow(parts, rows);
    forall p | p in parts ensures sound(PartRow(p, Some(Matches(rows, p.id)[0]))) {
      var i :| 0 <= i < |parts| && parts[i] == p;
      assert PartStream(parts, rows)[i] in PartStream(parts, rows);
    }
  }

  /** Conversely, one sound record for every part makes every streamed row sound. */
  lemma MatchedPartsStream(parts: seq<SourcePart>, rows: seq<RecordRow>, sound: PartRow -> bool)
    requires forall i, j :: 0 <= i < j < |parts| ==> parts[i].id != parts[j].id
    requires forall p :: p in parts ==>
               |Matches(rows, p.id)| == 1 && sound(PartRow(p, Some(Matches(rows, p.id)[0])))
    ensures |PartStream(parts, rows)| == |parts| && NoRepeatedPart(PartStream(parts, rows))
    ensures forall row :: row in PartStream(parts, rows) ==> sound(row)
  {
    OneMatchMeansOneRow(parts, rows);
    var stream := PartStream(parts, rows);
    forall i | 0 < i < |stream| ensures stream[i].part.id != stream[i - 1].part.id {
      assert parts[i - 1].id != parts[i].id;
    }
    forall row | row in stream ensures sound(row) {
      var i :| 0 <= i < |stream| && stream[i] == row;
      assert parts[i] in parts;
    }
  }

  lemma SoundMatchCovers(env: Env, db: Db, p: SourcePart)
    requires |Matches(db.records, p.id)| == 1
    requires PartRowSound(env, db.artifacts, Keys(db.records), PartRow(p, Some(Matches(db.records, p.id)[0])))
    ensures Covered(env, db, p)
  {
    MatchesMember(db.records, p.id, Matches(db.records, p.id)[0]);
  }

  lemma CoverIsSoundMatch(env: Env, db: Db, p: SourcePart)
    requires IdsAgree(db, |db.parts|) && Covered(env, db, p)
    ensures |Matches(db.records, p.id)| == 1
    ensures PartRowSound(env, db.artifacts, Keys(db.records), PartRow(p, Some(Matches(db.records, p.id)[0])))
  {
    var r :| r in db.records && r.accepted && r.partId == Some(p.id)
          && PartMatches(env, p, r.record, UrlOf(db.artifacts, r.artifact));
    OnlyMatch(db.records, p.id, r);
  }

  function SoundRow(env: Env, db: Db): PartRow -> bool {
    row => PartRowSound(env, db.artifacts, Keys(db.records), row)
  }

  lemma StreamedPartsAreSound(env: Env, db: Db)
    requires Keyed(db) && PartStreamAccepted(env, db)
    ensures |db.parts| == |Accepted(db.records)| > 0
    ensures forall p :: p in db.parts ==>
              |Matches(db.records, p.id)| == 1 && SoundRow(env, db)(PartRow(p, Some(Matches(db.records, p.id)[0])))
  {
    GroupedAgrees(db);
    var sound := SoundRow(env, db);
    forall row | row in PartStream(db.parts, db.records) ensures row.accepted.Some? && sound(row) {
      assert PartRowSound(env, db.artifacts, Keys(db.records), row);
    }
    StreamedPartsMatchOnce(db.parts, db.records, sound);
  }

  lemma StreamedPartsAgree(env: Env, db: Db)
    requires Keyed(db) && PartStreamAccepted(env, db)
    ensures IdsAgree(db, |db.parts|) && PartsCovered(env, db) && db.parts != []
  {
    StreamedPartsAreSound(env, db);
    CountsForceEqualSets(db.parts, db.records);
    forall p | p in db.parts ensures Covered(env, db, p) {
      assert SoundRow(env, db)(PartRow(p, Some(Matches(db.records, p.id)[0])));
      SoundMatchCovers(env, db, p);
    }
  }

  lemma CoveredPartsAreSound(env: Env, db: Db)
    requires IdsAgree(db, |db.parts|) && PartsCovered(env, db)
    ensures forall p :: p in db.parts ==>
              |Matches(db.records, p.id)| == 1 && SoundRow(env, db)(PartRow(p, Some(Matches(db.records, p.id)[0])))
  {
    forall p | p in db.parts
      ensures |Matches(db.records, p.id)| == 1 && SoundRow(env, db)(PartRow(p, Some(Matches(db.records, p.id)[0])))
    {
      CoverIsSoundMatch(env, db, p);
    }
  }

  lemma AgreedPartsStream(env: Env, db: Db)
    requires Keyed(db) && IdsAgree(db, |db.parts|) && PartsCovered(env, db) && db.parts != []
    ensures PartStreamAccepted(env, db)
  {
    GroupedAgrees(db);
    CoveredPartsAreSound(env, db);
    MatchedPartsStream(db.parts, db.records, SoundRow(env, db));
    assert |Accepted(db.records)| == |db.parts|;
    forall row | row in PartStream(db.parts, db.records)
      ensures PartRowSound(env, db.artifacts, Keys(db.records), row)
    {
      assert SoundRow(env, db)(row);
    }
  }

  ghost predicate AllStrict(db: Db, run: Run) {
    forall a :: a in db.artifacts ==> StrictProvenance(run, a)
  }

  lemma StreamAcceptsAsBatch(env: Env, db: Db, run: Run)
    requires Keyed(db) && StreamAccepts(env, db, run)
    ensures BatchAccepts(env, db, run, |db.parts|, None, false) && db.parts != [] && AllStrict(db, run)
  {
    GroupedAgrees(db);
    StreamedPartsAgree(env, db);
  }

  lemma BatchAcceptsAsStream(env: Env, db: Db, run: Run)
    requires Keyed(db) && BatchAccepts(env, db, run, |db.parts|, None, false)
    requires db.parts != [] && AllStrict(db, run)
    ensures StreamAccepts(env, db, run)
  {
    GroupedAgrees(db);
    AgreedPartsStream(env, db);
  }

  /** Counters and adjacent rows stand in for three set comparisons, and nothing is lost: the
      streaming verifier accepts exactly the runs that the batch verifier accepts with the number
      of source parts as target, no scope, current-attempt evidence and a non-empty dataset. */
  lemma StreamingRefinesBatch(env: Env, db: Db, run: Run)
    requires Keyed(db)
    ensures StreamAccepts(env, db, run)
       <==> BatchAccepts(env, db, run, |db.parts|, None, false) && db.parts != [] && AllStrict(db, run)
  {
    if StreamAccepts(env, db, run) {
      StreamAcceptsAsBatch(env, db, run);
    } else if BatchAccepts(env, db, run, |db.parts|, None, false) && db.parts != [] && AllStrict(db, run) {
      BatchAcceptsAsStream(env, db, run);
    }
  }

  /** Manifest bytes, dataset bytes and totals are the same, although one verifier hashes whole
      texts and the other hashes pieces in another order. */
  lemma StreamingSealsTheSameSummary(env: Env, db: Db)
    requires Keyed(db)
    ensures StreamSummary(env, db) == BatchSummary(env, db, None)
  {
    GroupedAgrees(db);
    GroupedPermutes(db);
    SameDataset(Grouped(db.artifacts, db.records), db.records);
  }
}
