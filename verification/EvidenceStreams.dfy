/**
The streaming verifier as it runs: an accumulator that never holds more than one artifact's
records, fed by two joined row streams.
*/
module EvidenceStreams {
  import opened Wrappers
  import opened Canonical
  import opened EvidenceMeaning
  import opened RunEvidence
  import opened EvidenceVerifiers

  // ---------------------------------------------------------------- what one more row means

  /** Per-row conditions the streaming verifier can decide before it has seen every row. */
  ghost predicate RowsFit(rows: seq<RecordRow>) {
    RowsSound(rows) && ChainsSound(rows) && |Keys(rows)| == |rows|
  }

  /** No continuation of these rows is acceptable. */
  ghost predicate Condemned(prefix: seq<RecordRow>) {
    forall rows :: prefix <= rows ==> !RecordsAccepted(rows)
  }

  lemma MisfitStays(prefix: seq<RecordRow>, longer: seq<RecordRow>)
    requires !RowsFit(prefix) && prefix <= longer
    ensures Condemned(longer)
  {
    forall rows | longer <= rows ensures !RecordsAccepted(rows) {
      assert rows == prefix + rows[|prefix|..];
      if RowsSound(prefix) && ChainsSound(prefix) { RepeatedKeyStays(prefix, rows[|prefix|..]); }
    }
  }

  lemma EvidenceNext(rows: seq<RecordRow>, row: RecordRow)
    ensures Lines(Evidence(rows + [row])) == Lines(Evidence(rows)) + [Line(row.record)]
  {
    assert Evidence(rows + [row]) == Evidence(rows) + [row.record];
  }

  function ParentOf(row: RecordRow): set<Key>
    requires ChainSound(row)
  {
    if row.record.recordType.Brand? then {} else {ParentKey(row)}
  }

  lemma ParentsNext(rows: seq<RecordRow>, row: RecordRow)
    requires ChainSound(row)
    ensures Parents(rows + [row]) == Parents(rows) + ParentOf(row)
  {
    assert forall r :: r in rows + [row] <==> r in rows || r == row;
  }

  lemma GroupedNext(artifacts: seq<Artifact>, records: seq<RecordRow>, k: nat)
    requires k < |artifacts|
    ensures Grouped(artifacts[..k + 1], records)
         == Grouped(artifacts[..k], records) + RowsOf(records, artifacts[k].id)
  {
    assert artifacts[..k + 1][..k] == artifacts[..k];
  }

  lemma {:induction false} GroupedPrefix(artifacts: seq<Artifact>, records: seq<RecordRow>, k: nat)
    requires k <= |artifacts|
    ensures Grouped(artifacts[..k], records) <= Grouped(artifacts, records)
  {
    var n := |artifacts|;
    if k == n {
      assert artifacts[..k] == artifacts;
    } else {
      GroupedPrefix(artifacts[..n - 1], records, k);
      assert artifacts[..n - 1][..k] == artifacts[..k];
    }
  }

  // ---------------------------------------------------------------- the accumulator

  class Seal {
    var manifest: string
    var original: int
    var stored: int
    var activeKeys: set<Key>
    var requiredParents: set<Key>
    var lines: seq<string>
    var accepted: nat
    var artifacts: nat

    constructor ()
      ensures RowsSealed([]) && manifest == "" && original == 0 && stored == 0 && artifacts == 0
    {
      manifest, original, stored, artifacts := "", 0, 0, 0;
      activeKeys, requiredParents, lines, accepted := {}, {}, [], 0;
    }

    ghost predicate RowsSealed(rows: seq<RecordRow>)
      reads this`activeKeys, this`requiredParents, this`lines, this`accepted
    {
      && RowsSound(rows) && ChainsSound(rows) && KeysHold(activeKeys, rows)
      && requiredParents == Parents(rows)
      && lines == Lines(Evidence(Accepted(rows))) && accepted == |Accepted(rows)|
    }

    ghost predicate TotalsSealed(env: Env, db: Db)
      reads this`manifest, this`original, this`stored, this`artifacts
    {
      && artifacts <= |db.artifacts|
      && manifest == (if artifacts == 0 then "" else "[" + Items(env, db, db.artifacts[..artifacts]))
      && original == TotalOriginal(db, db.artifacts[..artifacts])
      && stored == TotalStored(db, db.artifacts[..artifacts])
    }

    /** Everything the first `artifacts` artifacts contribute is accumulated, and they are sound. */
    ghost predicate Sealed(env: Env, db: Db, run: Run)
      reads this
    {
      && TotalsSealed(env, db) && ArtifactsFit(env, db, run, artifacts)
      && RowsSealed(Grouped(db.artifacts[..artifacts], db.records))
    }

    method AddRow(row: RecordRow, ghost rows: seq<RecordRow>) returns (ok: bool)
      requires RowsSealed(rows)
      modifies this`activeKeys, this`requiredParents, this`lines, this`accepted
      ensures ok ==> RowsSealed(rows + [row])
      ensures !ok ==> !RowsFit(rows + [row])
    {
      hide Keys, Accepted, Line, ChainSound, RowSound, Lines, Evidence, Parents;
      ghost var next := rows + [row];
      assert row in next;
      KeyAdded(activeKeys, rows, row);
      if KeyOf(row) in activeKeys { return false; }
      activeKeys := activeKeys + {KeyOf(row)};
      if !ChainSound(row) { return false; }
      ParentsNext(rows, row);
      requiredParents := requiredParents + ParentOf(row);
      if !RowSound(row) { return false; }
      AcceptedNext(rows, row);
      if row.accepted {
        EvidenceNext(Accepted(rows), row);
        lines := lines + [Line(row.record)];
        accepted := accepted + 1;
      }
      return true;
    }

    method AddRows(own: seq<RecordRow>, ghost rows: seq<RecordRow>) returns (ok: bool)
      requires RowsSealed(rows)
      modifies this`activeKeys, this`requiredParents, this`lines, this`accepted
      ensures ok ==> RowsSealed(rows + own)
      ensures !ok ==> Condemned(rows + own)
    {
      hide RowsSealed, RecordsAccepted, RowsFit, Condemned;
      assert rows + own[..0] == rows;
      for i := 0 to |own|
        invariant RowsSealed(rows + own[..i])
      {
        assert rows + own[..i] + [own[i]] == rows + own[..i + 1];
        ok := AddRow(own[i], rows + own[..i]);
        if !ok {
          assert rows + own == rows + own[..i + 1] + own[i + 1..];
          MisfitStays(rows + own[..i + 1], rows + own);
          return;
        }
      }
      assert own[..|own|] == own;
      return true;
    }

    method Count(env: Env, db: Db, a: Artifact, own: seq<RecordRow>)
      requires TotalsSealed(env, db)
      requires artifacts < |db.artifacts| && a == db.artifacts[artifacts] && own == RowsOf(db.records, a.id)
      modifies this`manifest, this`original, this`stored, this`artifacts
      ensures TotalsSealed(env, db) && artifacts == old(artifacts) + 1
    {
      hide RowsOf, Accepted, Items, Item, TotalOriginal, TotalStored, OriginalBytes, StoredBytes;
      TotalsNext(env, db, artifacts);
      ManifestNext(env, db, artifacts, manifest);
      manifest := manifest + (if manifest == "" then "[" else ",") + env.item(a, |own|, |Accepted(own)|);
      original := original + OriginalBytes(db, a);
      stored := stored + StoredBytes(db, a);
      artifacts := artifacts + 1;
    }

    /** Closes the artifact at position `artifacts` with the records buffered for it. */
    method Finalize(env: Env, db: Db, run: Run, a: Artifact, own: seq<RecordRow>) returns (ok: bool)
      requires artifacts < |db.artifacts| && a == db.artifacts[artifacts] && own == RowsOf(db.records, a.id)
      requires Sealed(env, db, run)
      modifies this
      ensures ok ==> artifacts == old(artifacts) + 1 && Sealed(env, db, run)
      ensures !ok ==> !StreamAccepts(env, db, run)
    {
      hide RowsSealed, TotalsSealed, RecordsAccepted, Admissible, ReplaySound, RowsOf, Grouped, StreamAccepts,
           ArtifactsFit;
      ghost var k := artifacts;
      if !Admissible(env, db, run, a) {
        UnsoundRejects(env, db, run, k);
        return false;
      }
      ok := AddRows(own, Grouped(db.artifacts[..k], db.records));
      GroupedNext(db.artifacts, db.records, k);
      if !ok {
        MisfitRejects(env, db, run, k);
        return;
      }
      AdmissibleBody(env, db, run, a);
      if !ReplaySound(env, db, a, own) {
        UnsoundRejects(env, db, run, k);
        return false;
      }
      Count(env, db, a, own);
      FitNext(env, db, run, k);
    }
  }

  predicate Admissible(env: Env, db: Db, run: Run, a: Artifact) {
    && StrictProvenance(run, a) && VerifiedLiveHttp(env, a) && InWindow(env, run, a) && UrlSound(env, a)
    && BodySound(env, db, a)
  }

  lemma AdmissibleBody(env: Env, db: Db, run: Run, a: Artifact)
    requires Admissible(env, db, run, a)
    ensures BodySound(env, db, a)
  {
  }

  ghost predicate ArtifactsFit(env: Env, db: Db, run: Run, k: nat)
    requires k <= |db.artifacts|
  {
    forall a :: a in db.artifacts[..k] ==>
      StrictProvenance(run, a) && ArtifactSound(env, db, run, a, RowsOf(db.records, a.id))
  }

  lemma FitNext(env: Env, db: Db, run: Run, k: nat)
    requires k < |db.artifacts| && ArtifactsFit(env, db, run, k)
    requires var a := db.artifacts[k];
      Admissible(env, db, run, a) && BodySound(env, db, a) && ReplaySound(env, db, a, RowsOf(db.records, a.id))
    ensures ArtifactsFit(env, db, run, k + 1)
  {
    hide ReplaySound, RowsOf, VerifiedLiveHttp, InWindow, UrlSound, BodySound, StrictProvenance;
    assert db.artifacts[..k + 1] == db.artifacts[..k] + [db.artifacts[k]];
  }

  lemma TotalsNext(env: Env, db: Db, k: nat)
    requires k < |db.artifacts|
    ensures TotalOriginal(db, db.artifacts[..k + 1])
      == TotalOriginal(db, db.artifacts[..k]) + OriginalBytes(db, db.artifacts[k])
    ensures TotalStored(db, db.artifacts[..k + 1])
      == TotalStored(db, db.artifacts[..k]) + StoredBytes(db, db.artifacts[k])
    ensures Items(env, db, db.artifacts[..k + 1])
         == Items(env, db, db.artifacts[..k]) + (if k == 0 then "" else ",") + Item(env, db, db.artifacts[k])
  {
    assert db.artifacts[..k + 1][..k] == db.artifacts[..k];
  }

  lemma ManifestNext(env: Env, db: Db, k: nat, manifest: string)
    requires k < |db.artifacts|
    requires manifest == if k == 0 then "" else "[" + Items(env, db, db.artifacts[..k])
    ensures var a := db.artifacts[k];
      var item := env.item(a, |RowsOf(db.records, a.id)|, |Accepted(RowsOf(db.records, a.id))|);
      manifest + (if manifest == "" then "[" else ",") + item == "[" + Items(env, db, db.artifacts[..k + 1])
  {
    hide RowsOf, Accepted;
    TotalsNext(env, db, k);
    assert k == 0 ==> Items(env, db, db.artifacts[..k]) == "";
  }

  lemma UnsoundRejects(env: Env, db: Db, run: Run, k: nat)
    requires k < |db.artifacts|
    requires var a := db.artifacts[k];
      Admissible(env, db, run, a) ==> BodySound(env, db, a) && !ReplaySound(env, db, a, RowsOf(db.records, a.id))
    ensures !StreamAccepts(env, db, run)
  {
    hide ReplaySound, RowsOf, VerifiedLiveHttp, InWindow, UrlSound, BodySound, StrictProvenance, PartStreamAccepted;
    assert db.artifacts[k] in db.artifacts;
  }

  lemma MisfitRejects(env: Env, db: Db, run: Run, k: nat)
    requires k < |db.artifacts| && Condemned(Grouped(db.artifacts[..k + 1], db.records))
    ensures !StreamAccepts(env, db, run)
  {
    hide RecordsAccepted, Grouped, AllSound, PartStreamAccepted;
    GroupedPrefix(db.artifacts, db.records, k + 1);
  }

  // ---------------------------------------------------------------- splitting the stream

  /** What the stream still shows once `m` records of artifact `k` have been read. */
  function Rest(db: Db, k: nat, m: nat): seq<ArtifactRow>
    requires k < |db.artifacts| && m <= |RowsOf(db.records, db.artifacts[k].id)|
  {
    var a := db.artifacts[k];
    Tagged(a, RowsOf(db.records, a.id)[m..]) + ArtifactStream(db.artifacts[k + 1..], db.records)
  }

  lemma RestStep(db: Db, k: nat, m: nat)
    requires k < |db.artifacts| && m < |RowsOf(db.records, db.artifacts[k].id)|
    ensures var a := db.artifacts[k];
      Rest(db, k, m) == [ArtifactRow(a, Some(RowsOf(db.records, a.id)[m]))] + Rest(db, k, m + 1)
  {
    hide RowsOf, ArtifactStream;
    var a := db.artifacts[k];
    var rows := RowsOf(db.records, a.id);
    assert Tagged(a, rows[m..]) == [ArtifactRow(a, Some(rows[m]))] + Tagged(a, rows[m + 1..]);
  }

  lemma RestEnd(db: Db, k: nat)
    requires k < |db.artifacts|
    ensures Rest(db, k, |RowsOf(db.records, db.artifacts[k].id)|) == ArtifactStream(db.artifacts[k + 1..], db.records)
  {
    hide RowsOf, ArtifactStream;
    var a := db.artifacts[k];
    var rows := RowsOf(db.records, a.id);
    assert Tagged(a, rows[|rows|..]) == [];
  }

  /** The rows of the next artifact begin with its first record, or with a row without one. */
  lemma StreamHead(db: Db, k: nat)
    requires k < |db.artifacts|
    ensures var a := db.artifacts[k];
      ArtifactStream(db.artifacts[k..], db.records)
        == (if RowsOf(db.records, a.id) == [] then [ArtifactRow(a, None)] else []) + Rest(db, k, 0)
  {
    hide RowsOf;
    var a := db.artifacts[k];
    var rows := RowsOf(db.records, a.id);
    assert db.artifacts[k..][0] == a && db.artifacts[k..][1..] == db.artifacts[k + 1..];
    assert rows[0..] == rows;
  }

  lemma StreamNotEmpty(db: Db, k: nat)
    requires k <= |db.artifacts|
    ensures ArtifactStream(db.artifacts[k..], db.records) == [] <==> k == |db.artifacts|
  {
    if k < |db.artifacts| { assert Joined(db.artifacts[k], RowsOf(db.records, db.artifacts[k].id)) != []; }
  }

  /** The position in the stream: artifact `k` is open and `own` holds its records read so far. */
  ghost predicate Open(db: Db, k: nat, a: Artifact, own: seq<RecordRow>, pending: seq<ArtifactRow>) {
    && k < |db.artifacts| && a == db.artifacts[k]
    && own <= RowsOf(db.records, a.id) && pending == Rest(db, k, |own|)
  }

  lemma OpenNext(db: Db, k: nat, row: ArtifactRow, pending: seq<ArtifactRow>)
    requires k < |db.artifacts| && [row] + pending == ArtifactStream(db.artifacts[k..], db.records)
    ensures row.artifact == db.artifacts[k]
    ensures Open(db, k, row.artifact, if row.record.Some? then [row.record.value] else [], pending)
  {
    hide RowsOf, ArtifactStream;
    StreamHead(db, k);
    var rows := RowsOf(db.records, db.artifacts[k].id);
    assert pending == ([row] + pending)[1..];
    if rows == [] {
      assert row == ([row] + pending)[0] == ArtifactRow(db.artifacts[k], None);
    } else {
      RestStep(db, k, 0);
      assert row == ([row] + pending)[0] == ArtifactRow(db.artifacts[k], Some(rows[0]));
    }
  }

  lemma OpenSame(db: Db, k: nat, a: Artifact, own: seq<RecordRow>, row: ArtifactRow, pending: seq<ArtifactRow>)
    requires Keyed(db) && Open(db, k, a, own, [row] + pending) && row.artifact.id == a.id
    ensures row.record.Some? && Open(db, k, a, own + [row.record.value], pending)
  {
    hide RowsOf, ArtifactStream;
    var rows := RowsOf(db.records, a.id);
    assert row == ([row] + pending)[0] && pending == ([row] + pending)[1..];
    if |own| == |rows| {
      RestEnd(db, k);
      StreamNotEmpty(db, k + 1);
      OpenNext(db, k + 1, row, pending);
    } else {
      RestStep(db, k, |own|);
    }
  }

  lemma OpenOther(db: Db, k: nat, a: Artifact, own: seq<RecordRow>, row: ArtifactRow, pending: seq<ArtifactRow>)
    requires Open(db, k, a, own, [row] + pending) && row.artifact.id != a.id
    ensures own == RowsOf(db.records, a.id) && k + 1 < |db.artifacts|
    ensures [row] + pending == ArtifactStream(db.artifacts[k + 1..], db.records)
  {
    hide RowsOf, ArtifactStream;
    var rows := RowsOf(db.records, a.id);
    assert row == ([row] + pending)[0];
    assert |own| == |rows|;
    RestEnd(db, k);
    StreamNotEmpty(db, k + 1);
  }

  lemma OpenLast(db: Db, k: nat, a: Artifact, own: seq<RecordRow>)
    requires Open(db, k, a, own, [])
    ensures own == RowsOf(db.records, a.id) && k + 1 == |db.artifacts|
  {
    hide RowsOf, ArtifactStream;
    assert |own| == |RowsOf(db.records, a.id)|;
    RestEnd(db, k);
    StreamNotEmpty(db, k + 1);
  }

  method OpenSeal(env: Env, db: Db, run: Run) returns (seal: Seal)
    ensures fresh(seal) && seal.artifacts == 0 && seal.Sealed(env, db, run)
  {
    seal := new Seal();
  }

  /** The artifact stream, cut at every change of artifact id. */
  method ReadArtifacts(env: Env, db: Db, run: Run) returns (ok: bool, seal: Seal)
    requires Keyed(db)
    ensures fresh(seal)
    ensures ok ==> seal.artifacts == |db.artifacts| && seal.Sealed(env, db, run)
    ensures !ok ==> !StreamAccepts(env, db, run)
  {
    hide StreamAccepts, Open, Keyed, RowsOf, ArtifactStream, Seal.Sealed, Seal.RowsSealed, Seal.TotalsSealed;
    seal := OpenSeal(env, db, run);
    var stream := ArtifactStream(db.artifacts, db.records);
    var current: Option<Artifact> := None;
    var own: seq<RecordRow> := [];
    assert db.artifacts[0..] == db.artifacts;
    for j := 0 to |stream|
      invariant fresh(seal) && seal.Sealed(env, db, run)
      invariant current.None? ==> j == 0 && seal.artifacts == 0
      invariant current.Some? ==> Open(db, seal.artifacts, current.value, own, stream[j..])
    {
      var row := stream[j];
      assert stream[j..] == [row] + stream[j + 1..];
      if current.None? || row.artifact.id != current.value.id {
        if current.Some? {
          OpenOther(db, seal.artifacts, current.value, own, row, stream[j + 1..]);
          OpenIs(db, seal.artifacts, current.value, own, stream[j..]);
          ok := seal.Finalize(env, db, run, current.value, own);
          if !ok { return; }
        } else {
          assert stream[0..] == stream;
          StreamNotEmpty(db, 0);
        }
        OpenNext(db, seal.artifacts, row, stream[j + 1..]);
        current, own := Some(row.artifact), [];
        if row.record.Some? {
          assert [] + [row.record.value] == [row.record.value];
          own := own + [row.record.value];
        }
      } else {
        OpenSame(db, seal.artifacts, current.value, own, row, stream[j + 1..]);
        if row.record.Some? { own := own + [row.record.value]; }
      }
    }
    assert stream[|stream|..] == [];
    if current.Some? {
      OpenLast(db, seal.artifacts, current.value, own);
      OpenIs(db, seal.artifacts, current.value, own, []);
      ok := seal.Finalize(env, db, run, current.value, own);
    } else {
      StreamNotEmpty(db, 0);
      ok := true;
    }
  }

  lemma OpenIs(db: Db, k: nat, a: Artifact, own: seq<RecordRow>, pending: seq<ArtifactRow>)
    requires Open(db, k, a, own, pending)
    ensures k < |db.artifacts| && a == db.artifacts[k]
  {
  }

  // ---------------------------------------------------------------- the part stream

  /** The part stream: repeated ids are adjacent because the query orders by id. */
  method ReadParts(env: Env, db: Db, active: set<Key>) returns (ok: bool, count: nat)
    ensures ok <==> && NoRepeatedPart(PartStream(db.parts, db.records))
                    && forall row :: row in PartStream(db.parts, db.records) ==>
                        PartRowSound(env, db.artifacts, active, row)
    ensures ok ==> count == |PartStream(db.parts, db.records)|
  {
    hide PartRowSound, PartStream;
    var stream := PartStream(db.parts, db.records);
    var previous: Option<int> := None;
    count := 0;
    for j := 0 to |stream|
      invariant count == j
      invariant previous == if j == 0 then None else Some(stream[j - 1].part.id)
      invariant NoRepeatedPart(stream[..j])
      invariant forall row :: row in stream[..j] ==> PartRowSound(env, db.artifacts, active, row)
    {
      var row := stream[j];
      assert stream[..j + 1] == stream[..j] + [row];
      if Some(row.part.id) == previous {
        assert stream[j].part.id == stream[j - 1].part.id;
        return false, count;
      }
      previous := Some(row.part.id);
      count := count + 1;
      if !PartRowSound(env, db.artifacts, active, row) { return false, count; }
    }
    assert stream[..|stream|] == stream;
    ok := true;
  }

  // ---------------------------------------------------------------- the dataset digest

  /** The sorted lines go into the digest in chunks; the chunk size leaves no trace. */
  method DigestedText(lines: seq<string>) returns (text: string)
    ensures text == JoinPrefixed(lines, Characters)
  {
    text := "";
    var start := 0;
    while start < |lines|
      invariant start <= |lines| && text == JoinPrefixed(lines[..start], Characters)
    {
      var stop := if start + 10_000 <= |lines| then start + 10_000 else |lines|;
      var chunk := lines[start..stop];
      assert lines[..stop] == lines[..start] + chunk;
      JoinPrefixedAppend(lines[..start], chunk, Characters);
      text := text + JoinPrefixed(chunk, Characters);
      start := stop;
    }
    assert lines[..start] == lines;
  }

  method VerifyRunFull(env: Env, db: Db, run: Run) returns (r: Result<Summary>)
    requires Keyed(db)
    ensures r.Success? <==> StreamAccepts(env, db, run)
    ensures r.Success? ==> r.value == StreamSummary(env, db)
  {
    hide Keyed, PartRowSound, PartStream, NoRepeatedPart, Accepted, Grouped, RowSound, ChainSound, ArtifactSound,
         StrictProvenance, Keys, Parents, Lines, Evidence, Items, TotalOriginal, TotalStored, JoinPrefixed, Sort;
    if !Preflight(env, db) { return Failure("incomplete artifacts or storage budget exceeded"); }
    var ok, seal := ReadArtifacts(env, db, run);
    if !ok { return Failure("artifact evidence mismatch"); }
    assert db.artifacts[..|db.artifacts|] == db.artifacts;
    var count: nat;
    ok, count := ReadParts(env, db, seal.activeKeys);
    if !ok { return Failure("part evidence mismatch"); }
    if count == 0 { return Failure("empty full candidate dataset"); }
    if count != seal.accepted { return Failure("evidence coverage mismatch"); }
    if seal.artifacts == 0 { return Failure("no verified HTTP evidence"); }
    if seal.artifacts > env.maxArtifacts { return Failure("artifact budget"); }
    if seal.original > env.maxRunBytes { return Failure("byte budget"); }
    if !(seal.requiredParents <= seal.activeKeys) { return Failure("broken evidence chains"); }
    var text := DigestedText(Sort(seal.lines));
    return Success(Summary(env.sha(seal.manifest + "]"), env.sha(text),
                           seal.artifacts, seal.accepted, seal.original, seal.stored));
  }

  /** Success says exactly that the rows prove what the seal stands for, with this attempt's evidence only. */
  method CalculateRunEvidenceFull(env: Env, db: Db, run: Run) returns (r: Result<Summary>)
    requires Keyed(db)
    ensures r.Success? <==> StreamAccepts(env, db, run)
    ensures r.Success? ==> r.value == StreamSummary(env, db)
    ensures r.Success?
       <==> RunProved(env, db, run, |db.parts|, None, false) && db.parts != []
            && forall a :: a in db.artifacts ==> a.scheduler == run.scheduler
    ensures r.Success? ==> SealProved(env, db, None, r.value)
  {
    hide RunProved, SealProved, Keyed, StreamAccepts, StreamSummary;
    r := VerifyRunFull(env, db, run);
    StreamProvedIff(env, db, run);
    StreamSealProved(env, db, run);
  }
}
