/**
The two verifiers as they run: loops over lists, sets, dictionaries and counters, each proved
against its acceptance predicate and its summary.
*/
module EvidenceVerifiers {
  import opened Wrappers
  import opened Canonical
  import opened RunEvidence
  import opened EvidenceMeaning
  import opened EvidenceRefinement

  // ---------------------------------------------------------------- one more row

  lemma KeysAppend(a: seq<RecordRow>, b: seq<RecordRow>)
    ensures Keys(a + b) == Keys(a) + Keys(b)
  {
    assert forall r :: r in a + b <==> r in a || r in b;
  }

  lemma PartIdsAppend(a: seq<RecordRow>, b: seq<RecordRow>)
    ensures PartIds(a + b) == PartIds(a) + PartIds(b)
  {
    assert forall r :: r in a + b <==> r in a || r in b;
  }

  lemma UnionSize<T>(a: set<T>, b: set<T>)
    ensures |a + b| <= |a| + |b|
  {
    assert |a + b| == |a| + |b| - |a * b|;
  }

  /** A key repeated in a prefix is a repeated key: later rows cannot repair the count. */
  lemma RepeatedKeyStays(a: seq<RecordRow>, b: seq<RecordRow>)
    requires |Keys(a)| < |a|
    ensures |Keys(a + b)| < |a + b|
  {
    KeysAppend(a, b);
    UnionSize(Keys(a), Keys(b));
  }

  lemma RepeatedPartStays(a: seq<RecordRow>, b: seq<RecordRow>)
    requires |PartIds(a)| < |a|
    ensures |PartIds(a + b)| < |a + b|
  {
    PartIdsAppend(a, b);
    PartIdsSize(b);
    UnionSize(PartIds(a), PartIds(b));
  }

  ghost predicate RowsSound(rows: seq<RecordRow>) { forall r :: r in rows ==> RowSound(r) }

  ghost predicate ChainsSound(rows: seq<RecordRow>) { forall r :: r in rows ==> ChainSound(r) }

  // ---------------------------------------------------------------- batch: record rows

  datatype Loaded = Loaded(
    active: set<Key>, accepted: seq<RecordRow>, byPart: map<int, RecordRow>, byArtifact: map<int, seq<RecordRow>>)

  function RowsFor(byArtifact: map<int, seq<RecordRow>>, artifact: int): seq<RecordRow> {
    if artifact in byArtifact then byArtifact[artifact] else []
  }

  ghost predicate KeysHold(active: set<Key>, rows: seq<RecordRow>) {
    active == Keys(rows) && |Keys(rows)| == |rows|
  }

  ghost predicate PartsHold(accepted: seq<RecordRow>, byPart: map<int, RecordRow>, rows: seq<RecordRow>) {
    && accepted == Accepted(rows)
    && byPart.Keys == PartIds(Accepted(rows)) && |PartIds(Accepted(rows))| == |Accepted(rows)|
    && (forall id :: id in byPart ==> byPart[id] in Accepted(rows) && byPart[id].partId == Some(id))
  }

  ghost predicate ArtifactsHold(byArtifact: map<int, seq<RecordRow>>, rows: seq<RecordRow>) {
    forall artifact :: RowsFor(byArtifact, artifact) == RowsOf(rows, artifact)
  }

  /** What the record loop has built after reading `rows`. */
  ghost predicate Holds(loaded: Loaded, rows: seq<RecordRow>) {
    KeysHold(loaded.active, rows) && PartsHold(loaded.accepted, loaded.byPart, rows)
      && ArtifactsHold(loaded.byArtifact, rows)
  }

  lemma AcceptedNext(rows: seq<RecordRow>, row: RecordRow)
    ensures Accepted(rows + [row]) == if row.accepted then Accepted(rows) + [row] else Accepted(rows)
  {
    assert (rows + [row])[..|rows|] == rows;
  }

  lemma PartIdsNext(accepted: seq<RecordRow>, row: RecordRow)
    requires row.partId.Some?
    ensures PartIds(accepted + [row]) == PartIds(accepted) + {row.partId.value}
  {
    PartIdsAppend(accepted, [row]);
    assert PartIds([row]) == {row.partId.value};
  }

  lemma KeyAdded(active: set<Key>, rows: seq<RecordRow>, row: RecordRow)
    requires KeysHold(active, rows)
    ensures KeyOf(row) !in active ==> KeysHold(active + {KeyOf(row)}, rows + [row])
    ensures KeyOf(row) in active ==> |Keys(rows + [row])| < |rows + [row]|
  {
    KeysAppend(rows, [row]);
    assert Keys([row]) == {KeyOf(row)};
    if KeyOf(row) in active { assert active + {KeyOf(row)} == active; }
  }

  lemma PartAdded(accepted: seq<RecordRow>, byPart: map<int, RecordRow>, rows: seq<RecordRow>, row: RecordRow)
    requires PartsHold(accepted, byPart, rows) && row.accepted && row.partId.Some?
    ensures row.partId.value !in byPart ==>
              PartsHold(accepted + [row], byPart[row.partId.value := row], rows + [row])
    ensures row.partId.value in byPart ==>
              |PartIds(Accepted(rows + [row]))| < |Accepted(rows + [row])|
  {
    hide Accepted, PartIds;
    AcceptedNext(rows, row);
    PartIdsNext(Accepted(rows), row);
    if row.partId.value in byPart {
      assert PartIds(Accepted(rows)) + {row.partId.value} == PartIds(Accepted(rows));
    }
  }

  lemma ArtifactAdded(byArtifact: map<int, seq<RecordRow>>, rows: seq<RecordRow>, row: RecordRow)
    requires ArtifactsHold(byArtifact, rows)
    ensures ArtifactsHold(byArtifact[row.artifact := RowsFor(byArtifact, row.artifact) + [row]], rows + [row])
  {
    var next := byArtifact[row.artifact := RowsFor(byArtifact, row.artifact) + [row]];
    forall artifact ensures RowsFor(next, artifact) == RowsOf(rows + [row], artifact) {
      RowsOfAppend(rows, [row], artifact);
    }
  }

  /** A repeated key or part id in a prefix cannot be repaired by later rows. */
  lemma DuplicateStays(rows: seq<RecordRow>, i: nat)
    requires i <= |rows|
    ensures |Keys(rows[..i])| < i ==> |Keys(rows)| < |rows|
    ensures |PartIds(Accepted(rows[..i]))| < |Accepted(rows[..i])| ==> |PartIds(Accepted(rows))| < |Accepted(rows)|
  {
    assert rows == rows[..i] + rows[i..];
    if |Keys(rows[..i])| < i { RepeatedKeyStays(rows[..i], rows[i..]); }
    if |PartIds(Accepted(rows[..i]))| < |Accepted(rows[..i])| {
      AcceptedAppend(rows[..i], rows[i..]);
      RepeatedPartStays(Accepted(rows[..i]), Accepted(rows[i..]));
    }
  }

  lemma NothingHolds()
    ensures KeysHold({}, []) && PartsHold([], map[], []) && ArtifactsHold(map[], [])
  {
  }

  lemma SoundAcceptedHasPart(row: RecordRow)
    requires RowSound(row) && row.accepted
    ensures row.partId.Some?
  {
  }

  lemma PartSkipped(accepted: seq<RecordRow>, byPart: map<int, RecordRow>, rows: seq<RecordRow>, row: RecordRow)
    requires PartsHold(accepted, byPart, rows) && !row.accepted
    ensures PartsHold(accepted, byPart, rows + [row])
  {
    AcceptedNext(rows, row);
  }

  method LoadRecords(rows: seq<RecordRow>) returns (r: Result<Loaded>)
    ensures r.Success?
       <==> RowsSound(rows) && |Keys(rows)| == |rows| && |PartIds(Accepted(rows))| == |Accepted(rows)|
    ensures r.Success? ==> Holds(r.value, rows)
  {
    hide Keys, PartIds, Accepted, RowsOf, RowSound;
    var active: set<Key> := {};
    var accepted: seq<RecordRow> := [];
    var byPart: map<int, RecordRow> := map[];
    var byArtifact: map<int, seq<RecordRow>> := map[];
    NothingHolds();
    for i := 0 to |rows|
      invariant RowsSound(rows[..i])
      invariant KeysHold(active, rows[..i])
      invariant PartsHold(accepted, byPart, rows[..i])
      invariant ArtifactsHold(byArtifact, rows[..i])
    {
      var row := rows[i];
      assert rows[..i + 1] == rows[..i] + [row];
      KeyAdded(active, rows[..i], row);
      ArtifactAdded(byArtifact, rows[..i], row);
      DuplicateStays(rows, i + 1);
      if KeyOf(row) in active { return Failure("duplicate active evidence key"); }
      active := active + {KeyOf(row)};
      if !RowSound(row) { return Failure("invalid accepted part evidence"); }
      if row.accepted {
        SoundAcceptedHasPart(row);
        PartAdded(accepted, byPart, rows[..i], row);
        if row.partId.value in byPart { return Failure("invalid accepted part evidence"); }
        byPart := byPart[row.partId.value := row];
        accepted := accepted + [row];
      } else {
        PartSkipped(accepted, byPart, rows[..i], row);
      }
      byArtifact := byArtifact[row.artifact := RowsFor(byArtifact, row.artifact) + [row]];
    }
    assert rows[..|rows|] == rows;
    return Success(Loaded(active, accepted, byPart, byArtifact));
  }

  method CheckChains(rows: seq<RecordRow>, active: set<Key>) returns (sound: bool)
    ensures sound <==> ChainsSound(rows) && Parents(rows) <= active
  {
    for i := 0 to |rows|
      invariant ChainsSound(rows[..i]) && Parents(rows[..i]) <= active
    {
      var row := rows[i];
      assert rows[..i + 1] == rows[..i] + [row];
      if !ChainSound(row) { return false; }
      if !row.record.recordType.Brand? && ParentKey(row) !in active {
        assert ParentKey(row) in Parents(rows);
        return false;
      }
    }
    assert rows[..|rows|] == rows;
    return true;
  }

  method CheckRecords(rows: seq<RecordRow>) returns (r: Result<Loaded>)
    ensures r.Success? <==> RecordsAccepted(rows) && |PartIds(Accepted(rows))| == |Accepted(rows)|
    ensures r.Success? ==> Holds(r.value, rows)
  {
    hide Keys, PartIds, Accepted, RowsOf, RowSound, ChainSound, Parents;
    r := LoadRecords(rows);
    if r.Failure? { return; }
    var chained := CheckChains(rows, r.value.active);
    if !chained { return Failure("broken evidence chain"); }
  }

  // ---------------------------------------------------------------- batch: source parts

  method CheckScope(env: Env, scope: Scope, parts: seq<SourcePart>) returns (invalid: nat)
    ensures invalid == 0 <==> forall p :: p in parts ==> InScope(env, scope, p)
  {
    invalid := 0;
    for i := 0 to |parts|
      invariant invalid == 0 <==> forall p :: p in parts[..i] ==> InScope(env, scope, p)
    {
      assert parts[..i + 1] == parts[..i] + [parts[i]];
      if !InScope(env, scope, parts[i]) { invalid := invalid + 1; }
    }
    assert parts[..|parts|] == parts;
  }

  predicate PartSound(env: Env, artifacts: seq<Artifact>, loaded: Loaded, p: SourcePart)
    requires p.id in loaded.byPart
  {
    && Hierarchy(env, p) <= loaded.active
    && PartMatches(env, p, loaded.byPart[p.id].record, UrlOf(artifacts, loaded.byPart[p.id].artifact))
  }

  /** The dictionary entry of a part is the only record that can cover it. */
  lemma LookupDecidesCover(env: Env, db: Db, loaded: Loaded, p: SourcePart)
    requires Holds(loaded, db.records) && p.id in loaded.byPart
    ensures PartSound(env, db.artifacts, loaded, p) <==> Covered(env, db, p)
  {
    var found := loaded.byPart[p.id];
    AcceptedMember(db.records, found);
    OnlyMatch(db.records, p.id, found);
    if Covered(env, db, p) {
      var r :| r in db.records && r.accepted && r.partId == Some(p.id)
            && PartMatches(env, p, r.record, UrlOf(db.artifacts, r.artifact));
      OnlyMatch(db.records, p.id, r);
      assert [r][0] == [found][0];
    }
  }

  method CheckParts(env: Env, db: Db, loaded: Loaded) returns (sound: bool)
    requires Holds(loaded, db.records) && SourceIds(db.parts) == PartIds(Accepted(db.records))
    ensures sound <==> PartsCovered(env, db)
  {
    hide Covered, PartSound, Accepted, Keys;
    for i := 0 to |db.parts|
      invariant forall p :: p in db.parts[..i] ==> Covered(env, db, p)
    {
      var p := db.parts[i];
      assert db.parts[..i + 1] == db.parts[..i] + [p];
      assert p in db.parts && p.id in SourceIds(db.parts);
      LookupDecidesCover(env, db, loaded, p);
      if !PartSound(env, db.artifacts, loaded, p) { return false; }
    }
    assert db.parts[..|db.parts|] == db.parts;
    return true;
  }

  // ---------------------------------------------------------------- batch: artifacts

  lemma SoundBody(env: Env, db: Db, run: Run, a: Artifact, rows: seq<RecordRow>)
    requires ArtifactSound(env, db, run, a, rows)
    ensures a.bodySha in db.bodies
  {
  }

  method CheckArtifacts(env: Env, db: Db, run: Run, allowFailed: bool, byArtifact: map<int, seq<RecordRow>>)
      returns (sound: bool, items: string, original: int, stored: int)
    requires forall artifact :: RowsFor(byArtifact, artifact) == RowsOf(db.records, artifact)
    ensures sound
       <==> AllSound(env, db, run) && forall a :: a in db.artifacts ==> BoundedProvenance(run, a, allowFailed)
    ensures sound ==> items == Items(env, db, db.artifacts)
    ensures sound ==> original == TotalOriginal(db, db.artifacts) && stored == TotalStored(db, db.artifacts)
  {
    hide ArtifactSound, BoundedProvenance, RowsOf, Accepted;
    sound, items, original, stored := true, "", 0, 0;
    for i := 0 to |db.artifacts|
      invariant forall a :: a in db.artifacts[..i] ==>
        ArtifactSound(env, db, run, a, RowsOf(db.records, a.id)) && BoundedProvenance(run, a, allowFailed)
      invariant items == Items(env, db, db.artifacts[..i])
      invariant original == TotalOriginal(db, db.artifacts[..i]) && stored == TotalStored(db, db.artifacts[..i])
    {
      var a := db.artifacts[i];
      var rows := RowsFor(byArtifact, a.id);
      assert db.artifacts[..i + 1][..i] == db.artifacts[..i];
      assert db.artifacts[..i + 1] == db.artifacts[..i] + [a];
      if !BoundedProvenance(run, a, allowFailed) || !ArtifactSound(env, db, run, a, rows) {
        sound := false;
        return;
      }
      SoundBody(env, db, run, a, rows);
      original := original + db.bodies[a.bodySha].originalBytes;
      stored := stored + db.bodies[a.bodySha].storedBytes;
      items := items + (if i == 0 then "" else ",") + env.item(a, |rows|, |Accepted(rows)|);
    }
    assert db.artifacts[..|db.artifacts|] == db.artifacts;
  }

  method VerifyRun(env: Env, db: Db, run: Run, target: int, scope: Option<Scope>, allowFailed: bool)
      returns (r: Result<Summary>)
    ensures r.Success? <==> BatchAccepts(env, db, run, target, scope, allowFailed)
    ensures r.Success? ==> r.value == BatchSummary(env, db, scope)
  {
    hide AllSound, PartsCovered, RecordsAccepted, Preflight, Accepted, Keys, BoundedProvenance, PartIds, InScope;
    if !Preflight(env, db) { return Failure("incomplete artifacts or storage budget exceeded"); }
    if |db.artifacts| == 0 || |db.artifacts| > env.maxArtifacts { return Failure("artifact budget"); }
    var records := CheckRecords(db.records);
    if records.Failure? { return Failure(records.message); }
    var loaded := records.value;
    var source := SourceIds(db.parts);
    if |source| != target || |loaded.byPart.Keys| != target || loaded.byPart.Keys != source {
      return Failure("evidence coverage mismatch");
    }
    if scope.Some? {
      var invalid := CheckScope(env, scope.value, db.parts);
      if invalid > 0 { return Failure("declared model scope mismatch"); }
    }
    var covered := CheckParts(env, db, loaded);
    if !covered { return Failure("part evidence mismatch"); }
    var sound, items, original, stored := CheckArtifacts(env, db, run, allowFailed, loaded.byArtifact);
    if !sound { return Failure("artifact evidence mismatch"); }
    if original > env.maxRunBytes { return Failure("byte budget"); }
    var list := "[" + items + "]";
    var manifest := if scope.None? then list
                    else "{\"artifacts\":" + list + ",\"scope\":" + env.scopeJson(scope.value) + "}";
    return Success(Summary(env.sha(manifest), env.sha(DatasetPreimage(Evidence(loaded.accepted))),
                           |db.artifacts|, |loaded.accepted|, original, stored));
  }

  /** Success says exactly that the rows prove what the seal stands for. */
  method CalculateRunEvidence(env: Env, db: Db, run: Run, target: int, scope: Option<Scope>, allowFailed: bool)
      returns (r: Result<Summary>)
    ensures r.Success? <==> BatchAccepts(env, db, run, target, scope, allowFailed)
    ensures r.Success? ==> r.value == BatchSummary(env, db, scope)
    ensures Keyed(db) ==> (r.Success? <==> RunProved(env, db, run, target, scope, allowFailed))
    ensures Keyed(db) && r.Success? ==> SealProved(env, db, scope, r.value)
  {
    hide RunProved, SealProved, Keyed, BatchAccepts, BatchSummary;
    r := VerifyRun(env, db, run, target, scope, allowFailed);
    if Keyed(db) {
      BatchProvedIff(env, db, run, target, scope, allowFailed);
      if r.Success? { BatchSealProved(env, db, run, target, scope, allowFailed); }
    }
  }
}
