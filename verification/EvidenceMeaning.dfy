/**
What a sealed run proves, said of the stored rows alone: which records there are, what each source
part and each artifact has to agree with, and what the seal is computed from.  Both verifiers accept
exactly the runs of which this holds.
*/
module EvidenceMeaning {
  import opened Wrappers
  import opened Canonical
  import opened RunEvidence
  import opened EvidenceRefinement

  // ---------------------------------------------------------------- records

  predicate Above(parent: RecordType, child: RecordType) {
    || (parent.Brand? && child.Model?) || (parent.Model? && child.Vehicle?) || (parent.Vehicle? && child.Category?)
    || (parent.Category? && child.Group?) || (parent.Group? && (child.Part? || child.QuarantinePart?))
  }

  /** A brand stands alone; any other record hangs below a stored record of the type above. */
  ghost predicate Rooted(rows: seq<RecordRow>, r: RecordRow) {
    if r.record.recordType.Brand? then r.record.parent.None?
    else exists q :: q in rows && Hangs(q, r)
  }

  predicate Hangs(q: RecordRow, r: RecordRow) {
    Above(q.record.recordType, r.record.recordType) && r.record.parent == Some(q.record.naturalKey)
  }

  ghost predicate KeysDiffer(rows: seq<RecordRow>) {
    forall i, j :: 0 <= i < j < |rows| ==> !SameKey(rows[i].record, rows[j].record)
  }

  predicate SameKey(a: RecordEvidence, b: RecordEvidence) {
    a.recordType == b.recordType && a.naturalKey == b.naturalKey
  }

  ghost predicate RecordsProved(rows: seq<RecordRow>) {
    && KeysDiffer(rows) && (forall r :: r in rows ==> Rooted(rows, r))
    && (forall r :: r in rows ==>
          if r.accepted then r.record.recordType.Part? && r.partId.Some? else r.partId.None?)
  }

  lemma DifferNext(before: seq<RecordRow>, last: RecordRow)
    ensures KeysDiffer(before + [last])
       <==> KeysDiffer(before) && forall i :: 0 <= i < |before| ==> !SameKey(before[i].record, last.record)
  {
    hide SameKey;
    var rows := before + [last];
    assert forall i :: 0 <= i < |before| ==> rows[i] == before[i];
    assert rows[|before|] == last;
  }

  lemma KeysNext(before: seq<RecordRow>, last: RecordRow)
    ensures Keys(before + [last]) == Keys(before) + {KeyOf(last)}
  {
    assert (before + [last])[..|before|] == before;
  }

  lemma KeyAmong(rows: seq<RecordRow>, row: RecordRow)
    ensures KeyOf(row) in Keys(rows) <==> exists i :: 0 <= i < |rows| && SameKey(rows[i].record, row.record)
  {
    if KeyOf(row) in Keys(rows) {
      var i :| 0 <= i < |rows| && KeyOf(rows[i]) == KeyOf(row);
      assert SameKey(rows[i].record, row.record);
    }
    if i :| 0 <= i < |rows| && SameKey(rows[i].record, row.record) { assert KeyOf(rows[i]) == KeyOf(row); }
  }

  lemma {:induction false} DistinctKeysIff(rows: seq<RecordRow>)
    ensures |Keys(rows)| == |rows| <==> KeysDiffer(rows)
  {
    if rows != [] {
      hide KeysDiffer, KeyOf, Keys, SameKey;
      var n := |rows| - 1;
      assert rows == rows[..n] + [rows[n]];
      DistinctKeysIff(rows[..n]);
      KeysNext(rows[..n], rows[n]);
      DifferNext(rows[..n], rows[n]);
      KeyAmong(rows[..n], rows[n]);
    }
  }

  lemma RootedIff(rows: seq<RecordRow>)
    ensures (forall r :: r in rows ==> Rooted(rows, r))
       <==> (forall r :: r in rows ==> ChainSound(r)) && Parents(rows) <= Keys(rows)
  {
    hide Above;
    if (forall r :: r in rows ==> ChainSound(r)) && Parents(rows) <= Keys(rows) {
      forall r | r in rows ensures Rooted(rows, r) {
        if !r.record.recordType.Brand? {
          assert ParentKey(r) in Parents(rows);
          var q :| q in rows && KeyOf(q) == ParentKey(r);
          HangsIff(q, r);
        }
      }
    }
    if forall r :: r in rows ==> Rooted(rows, r) {
      forall r | r in rows ensures ChainSound(r) && (!r.record.recordType.Brand? ==> ParentKey(r) in Keys(rows)) {
        if !r.record.recordType.Brand? {
          var q :| q in rows && Hangs(q, r);
          HangsIff(q, r);
          assert KeyOf(q) in Keys(rows);
        }
      }
    }
  }

  lemma HangsIff(q: RecordRow, r: RecordRow)
    requires !r.record.recordType.Brand?
    ensures Hangs(q, r) <==> ChainSound(r) && ParentKey(r) == KeyOf(q)
  {
  }

  lemma RecordsProvedIff(rows: seq<RecordRow>)
    ensures RecordsProved(rows) <==> RecordsAccepted(rows)
  {
    hide Keys, Parents, ChainSound, Rooted, KeysDiffer;
    DistinctKeysIff(rows);
    RootedIff(rows);
  }

  // ---------------------------------------------------------------- source parts

  ghost predicate HasRecord(rows: seq<RecordRow>, kind: RecordType, digest: string) {
    exists q :: q in rows && q.record.recordType == kind && q.record.naturalKey == digest
  }

  /** Row `i` is the one accepted record of the part. */
  ghost predicate OnlyRecord(rows: seq<RecordRow>, part: int, i: nat) {
    i < |rows| && forall j :: 0 <= j < |rows| ==> (rows[j].accepted && rows[j].partId == Some(part) <==> j == i)
  }

  function GroupKeyOf(p: SourcePart): NaturalKey {
    GroupKey(CategoryKey(VehicleKey(p.brand, p.model, p.vehicle), p.cid, p.category), p.code, p.uid)
  }

  /** The record carries the recomputed digests of the part, and its page is the part's own. */
  ghost predicate Agrees(env: Env, db: Db, p: SourcePart, r: RecordRow) {
    && r.record.naturalKey == env.keySha(PartKey(GroupKeyOf(p), p.number, p.range))
    && r.record.parent == Some(env.keySha(GroupKeyOf(p)))
    && r.record.recordSha == env.payloadSha(p)
    && exists a :: a in db.artifacts && a.id == r.artifact && a.url == p.url
  }

  ghost predicate HierarchyProved(env: Env, rows: seq<RecordRow>, p: SourcePart) {
    var vehicle := VehicleKey(p.brand, p.model, p.vehicle);
    && HasRecord(rows, Brand, env.keySha(BrandKey(p.brand)))
    && HasRecord(rows, Model, env.keySha(ModelKey(p.brand, p.model)))
    && HasRecord(rows, Vehicle, env.keySha(vehicle))
    && HasRecord(rows, Category, env.keySha(CategoryKey(vehicle, p.cid, p.category)))
    && HasRecord(rows, Group, env.keySha(GroupKeyOf(p)))
  }

  ghost predicate PartProved(env: Env, db: Db, p: SourcePart) {
    && HierarchyProved(env, db.records, p) && env.publicUrl(p.url) == Some(p.url)
    && exists i: nat :: OnlyRecord(db.records, p.id, i) && Agrees(env, db, p, db.records[i])
  }

  ghost predicate PartsProved(env: Env, db: Db) {
    && (forall p :: p in db.parts ==> PartProved(env, db, p))
    && (forall r :: r in db.records && r.accepted ==> exists p :: p in db.parts && r.partId == Some(p.id))
  }

  lemma {:induction false} UrlOfArtifact(artifacts: seq<Artifact>, a: Artifact)
    requires a in artifacts && forall i, j :: 0 <= i < j < |artifacts| ==> artifacts[i].id != artifacts[j].id
    ensures UrlOf(artifacts, a.id) == a.url
  {
    if artifacts[0] != a {
      assert artifacts == [artifacts[0]] + artifacts[1..];
      var i :| 0 <= i < |artifacts| && artifacts[i] == a;
      UrlOfArtifact(artifacts[1..], a);
    }
  }

  lemma HierarchyProvedIff(env: Env, rows: seq<RecordRow>, p: SourcePart)
    ensures HierarchyProved(env, rows, p) <==> Hierarchy(env, p) <= Keys(rows)
  {
    hide HasRecord;
    forall kind, digest ensures HasRecord(rows, kind, digest) <==> (kind, digest) in Keys(rows) {
      HasRecordIff(rows, kind, digest);
    }
  }

  lemma HasRecordIff(rows: seq<RecordRow>, kind: RecordType, digest: string)
    ensures HasRecord(rows, kind, digest) <==> (kind, digest) in Keys(rows)
  {
    if HasRecord(rows, kind, digest) {
      var q :| q in rows && q.record.recordType == kind && q.record.naturalKey == digest;
      assert KeyOf(q) == (kind, digest);
    }
  }

  lemma AgreesIff(env: Env, db: Db, p: SourcePart, r: RecordRow)
    requires Keyed(db) && r in db.records && env.publicUrl(p.url) == Some(p.url)
    ensures Agrees(env, db, p, r) <==> PartMatches(env, p, r.record, UrlOf(db.artifacts, r.artifact))
  {
    var a :| a in db.artifacts && a.id == r.artifact;
    UrlOfArtifact(db.artifacts, a);
    forall b | b in db.artifacts && b.id == r.artifact ensures b.url == a.url { UrlOfArtifact(db.artifacts, b); }
  }

  /** As many accepted rows as part ids: no two accepted rows name one part. */
  lemma {:induction false} AcceptedOnce(rows: seq<RecordRow>, i: nat, j: nat)
    requires |PartIds(Accepted(rows))| == |Accepted(rows)| && i < j < |rows|
    requires rows[i].accepted && rows[j].accepted && rows[i].partId.Some?
    ensures rows[i].partId != rows[j].partId
  {
    var n := |rows| - 1;
    var before, last := rows[..n], rows[n];
    assert rows == before + [last];
    PartIdsSize(Accepted(before));
    if last.accepted {
      assert Accepted(rows) == Accepted(before) + [last];
      assert PartIds(Accepted(rows))
          == PartIds(Accepted(before)) + (if last.partId.Some? then {last.partId.value} else {});
    } else {
      assert Accepted(rows) == Accepted(before);
    }
    if j < n {
      AcceptedOnce(before, i, j);
    } else {
      AcceptedMember(before, rows[i]);
      assert rows[i] in before && rows[i].partId.value in PartIds(Accepted(before));
    }
  }

  lemma PartProvedFromCover(env: Env, db: Db, p: SourcePart)
    requires Keyed(db) && |PartIds(Accepted(db.records))| == |Accepted(db.records)| && Covered(env, db, p)
    ensures PartProved(env, db, p)
  {
    hide Agrees, PartMatches, Accepted, Keyed, HierarchyProved, Hierarchy, Keys;
    HierarchyProvedIff(env, db.records, p);
    var r :| r in db.records && r.accepted && r.partId == Some(p.id)
          && PartMatches(env, p, r.record, UrlOf(db.artifacts, r.artifact));
    var i :| 0 <= i < |db.records| && db.records[i] == r;
    forall j | 0 <= j < |db.records|
      ensures db.records[j].accepted && db.records[j].partId == Some(p.id) <==> j == i
    {
      if db.records[j].accepted && db.records[j].partId == Some(p.id) && j != i {
        AcceptedOnce(db.records, if i < j then i else j, if i < j then j else i);
      }
    }
    assert OnlyRecord(db.records, p.id, i);
    MatchesHasUrl(env, p, r, UrlOf(db.artifacts, r.artifact));
    AgreesIff(env, db, p, r);
  }

  lemma MatchesHasUrl(env: Env, p: SourcePart, r: RecordRow, url: string)
    requires PartMatches(env, p, r.record, url)
    ensures env.publicUrl(p.url) == Some(p.url)
  {
  }

  lemma CoverFromPartProved(env: Env, db: Db, p: SourcePart)
    requires Keyed(db) && PartProved(env, db, p)
    ensures Covered(env, db, p)
  {
    hide Agrees, PartMatches, HierarchyProved, Hierarchy, Keys, Keyed;
    HierarchyProvedIff(env, db.records, p);
    var i: nat :| OnlyRecord(db.records, p.id, i) && Agrees(env, db, p, db.records[i]);
    assert db.records[i] in db.records;
    AgreesIff(env, db, p, db.records[i]);
  }

  /** When every part has its one record and every accepted record its part, the three counts agree. */
  lemma OneRecordEach(env: Env, db: Db)
    requires Keyed(db) && PartsProved(env, db) && RecordsProved(db.records)
    ensures IdsAgree(db, |db.parts|)
  {
    hide PartProved;
    DistinctIds(db.parts);
    forall i, j | 0 <= i < j < |db.records| && db.records[i].accepted && db.records[j].accepted
      ensures db.records[i].partId != db.records[j].partId
    {
      assert db.records[i] in db.records;
      var p :| p in db.parts && db.records[i].partId == Some(p.id);
      assert PartProved(env, db, p);
      OnlyOne(env, db, p, i, j);
    }
    DistinctAccepted(db.records);
    forall id ensures id in SourceIds(db.parts) <==> id in PartIds(Accepted(db.records)) {
      if id in SourceIds(db.parts) {
        var p :| p in db.parts && p.id == id;
        assert PartProved(env, db, p);
        HasOne(env, db, p);
      }
      if id in PartIds(Accepted(db.records)) {
        var r :| r in Accepted(db.records) && r.partId == Some(id);
        AcceptedMember(db.records, r);
      }
    }
    assert SourceIds(db.parts) == PartIds(Accepted(db.records));
  }

  lemma OnlyOne(env: Env, db: Db, p: SourcePart, i: nat, j: nat)
    requires PartProved(env, db, p) && i < j < |db.records| && db.records[i].accepted && db.records[j].accepted
    requires db.records[i].partId == Some(p.id)
    ensures db.records[j].partId != Some(p.id)
  {
    hide Agrees, HierarchyProved;
  }

  lemma HasOne(env: Env, db: Db, p: SourcePart)
    requires PartProved(env, db, p)
    ensures p.id in PartIds(Accepted(db.records))
  {
    hide Agrees, HierarchyProved;
    var i: nat :| OnlyRecord(db.records, p.id, i) && Agrees(env, db, p, db.records[i]);
    AcceptedMember(db.records, db.records[i]);
  }

  lemma {:induction false} DistinctAccepted(rows: seq<RecordRow>)
    requires forall r :: r in rows && r.accepted ==> r.partId.Some?
    requires forall i, j :: 0 <= i < j < |rows| && rows[i].accepted && rows[j].accepted ==>
               rows[i].partId != rows[j].partId
    ensures |PartIds(Accepted(rows))| == |Accepted(rows)|
  {
    if rows != [] {
      var n := |rows| - 1;
      var before, last := rows[..n], rows[n];
      assert rows == before + [last];
      DistinctAccepted(before);
      if last.accepted {
        forall r | r in Accepted(before) ensures r.partId != last.partId {
          AcceptedMember(before, r);
          var i :| 0 <= i < n && rows[i] == r;
        }
        assert last in rows && Accepted(rows) == Accepted(before) + [last];
        assert PartIds(Accepted(rows)) == PartIds(Accepted(before)) + {last.partId.value};
        assert last.partId.value !in PartIds(Accepted(before));
      } else {
        assert Accepted(before) + [] == Accepted(before);
      }
    }
  }

  // ---------------------------------------------------------------- artifacts

  /** The records that some rows stand for, in no order. */
  function Bag(rows: seq<RecordRow>, keep: RecordRow -> bool): multiset<RecordEvidence> {
    if rows == [] then multiset{}
    else (if keep(rows[0]) then multiset{rows[0].record} else multiset{}) + Bag(rows[1..], keep)
  }

  function Parsed(id: int): RecordRow -> bool { (r: RecordRow) => r.artifact == id }

  function Taken(id: int): RecordRow -> bool { (r: RecordRow) => r.artifact == id && r.accepted }

  function SetAside(id: int): RecordRow -> bool {
    (r: RecordRow) => r.artifact == id && r.record.recordType.QuarantinePart?
  }

  /** The digest is that of the records, in whatever order they are listed. */
  ghost predicate DigestOf(env: Env, records: multiset<RecordEvidence>, digest: string) {
    forall list: seq<RecordEvidence> :: multiset(list) == records ==> env.sha(DatasetPreimage(list)) == digest
  }

  predicate FetchedLive(env: Env, a: Artifact) {
    && a.captureKind == LiveHttp && a.jobName == CatalogJob && a.trigger == Daemon
    && a.httpStatus == 200 && env.isHtml(a.contentType) && !a.challenge
    && a.sanitizer == env.sanitizer && a.malformed == 0 && a.verifiedAt != None
    && (a.pageType, a.parserName) in
         {(GenuinePage, ParseBrands), (LocatePage, ParseBrandIndex), (PickPage, ParseVehicles),
          (PickPage, ParseBrandIndex), (VehiclePage, ParseCategoryLinks), (VehiclePage, ParseGroups),
          (CategoryPage, ParseGroups), (UnitPage, ParseParts)}
  }

  /** Not before run and job started, and at most five minutes after the job ended. */
  predicate FetchedInTime(env: Env, run: Run, a: Artifact) {
    && run.started <= a.fetchedAt && a.jobStarted <= a.fetchedAt
    && match a.jobFinished
       case Some(finished) => a.fetchedAt <= finished + 300
       case None => a.jobStatus == Running && a.fetchedAt <= env.latest
  }

  predicate AddressProved(env: Env, a: Artifact) {
    env.publicUrl(a.url) == Some(a.url) && a.urlSha == env.sha(a.url)
    && |a.rawSha| == 64 && forall i :: 0 <= i < 64 ==> a.rawSha[i] in "0123456789abcdef"
  }

  /** The stored body restores to a text of its size and digest that holds no secret. */
  predicate BodyProved(env: Env, db: Db, a: Artifact, text: string) {
    && a.bodySha in db.bodies && env.restore(db.bodies[a.bodySha]) == Some(text)
    && 0 < |text| <= env.maxBodyBytes && db.bodies[a.bodySha].originalBytes == |text|
    && db.bodies[a.bodySha].storedBytes == |db.bodies[a.bodySha].blob|
    && env.sha(text) == a.bodySha && env.secretFree(text)
  }

  /** Parsing the text again gives the stored records, faults and skips. */
  ghost predicate ReplayProved(env: Env, db: Db, a: Artifact, text: string) {
    && env.canonicalContext(a.parserName, a.context).Some?
    && env.sha(env.canonicalContext(a.parserName, a.context).value) == a.contextSha
    && env.replay(text, a.parserName, a.parserVersion, a.context).Some?
    && var replayed := env.replay(text, a.parserName, a.parserVersion, a.context).value;
       var parsed, taken := Bag(db.records, Parsed(a.id)), Bag(db.records, Taken(a.id));
       && multiset(replayed.records) == parsed && replayed.malformed == a.malformed && replayed.skipped == a.skipped
       && a.parsedCount == |parsed| && DigestOf(env, parsed, a.parsedSha)
       && a.acceptedCount == |taken| && DigestOf(env, taken, a.acceptedSha)
       && |Bag(db.records, SetAside(a.id))| == if a.pageType == UnitPage then a.skipped else 0
  }

  ghost predicate ArtifactProved(env: Env, db: Db, run: Run, a: Artifact) {
    && FetchedLive(env, a) && FetchedInTime(env, run, a) && AddressProved(env, a)
    && exists text :: BodyProved(env, db, a, text) && ReplayProved(env, db, a, text)
  }

  /** This attempt's running or successful job, or another attempt's failed one; the failed job of this
      attempt where that is allowed. */
  predicate JobProved(run: Run, a: Artifact, allowFailed: bool) {
    var failed := a.jobStatus == Failed && a.exitCode.Some? && a.exitCode != Some(0);
    if a.scheduler != run.scheduler then failed
    else
      || a.jobStatus == Running || (a.jobStatus == Completed && a.exitCode == Some(0))
      || (allowFailed && failed && a.jobFinished.Some?)
  }

  lemma {:induction false} BagIsParsed(rows: seq<RecordRow>, id: int)
    ensures Bag(rows, Parsed(id)) == multiset(Evidence(RowsOf(rows, id)))
  {
    if rows != [] {
      BagIsParsed(rows[1..], id);
      var tail := RowsOf(rows[1..], id);
      if rows[0].artifact == id {
        assert Evidence([rows[0]] + tail) == [rows[0].record] + Evidence(tail) by { EvidenceSplit([rows[0]], tail); }
      } else {
        assert [] + tail == tail;
      }
    }
  }

  lemma {:induction false} EvidenceSplit(a: seq<RecordRow>, b: seq<RecordRow>)
    ensures Evidence(a + b) == Evidence(a) + Evidence(b)
    ensures |Evidence(a)| == |a| && (|a| == 1 ==> Evidence(a) == [a[0].record])
  {
    assert Evidence(a + b) == Evidence(a) + Evidence(b);
  }

  lemma {:induction false} BagIsTaken(rows: seq<RecordRow>, id: int)
    ensures Bag(rows, Taken(id)) == multiset(Evidence(Accepted(RowsOf(rows, id))))
  {
    if rows != [] {
      BagIsTaken(rows[1..], id);
      var tail := RowsOf(rows[1..], id);
      if rows[0].artifact == id {
        AcceptedAppend([rows[0]], tail);
        assert Accepted([rows[0]]) == if rows[0].accepted then [rows[0]] else [] by { assert [rows[0]][..0] == []; }
        EvidenceSplit(Accepted([rows[0]]), Accepted(tail));
        EvidenceSplit([rows[0]], tail);
      } else {
        assert [] + tail == tail;
      }
    }
  }

  lemma {:induction false} BagIsSetAside(rows: seq<RecordRow>, id: int)
    ensures |Bag(rows, SetAside(id))| == Quarantined(RowsOf(rows, id))
  {
    if rows != [] {
      BagIsSetAside(rows[1..], id);
      var tail := RowsOf(rows[1..], id);
      if rows[0].artifact == id {
        QuarantinedAppend(rows[0], tail);
      } else {
        assert [] + tail == tail;
      }
    }
  }

  lemma {:induction false} QuarantinedAppend(r: RecordRow, rows: seq<RecordRow>)
    ensures Quarantined([r] + rows) == (if r.record.recordType.QuarantinePart? then 1 else 0) + Quarantined(rows)
  {
    var n := |rows| - 1;
    if rows == [] {
      assert ([r] + rows)[..0] == [];
    } else {
      assert ([r] + rows)[..|rows|] == [r] + rows[..n];
      QuarantinedAppend(r, rows[..n]);
    }
  }

  lemma DigestIff(env: Env, list: seq<RecordEvidence>, digest: string)
    ensures DigestOf(env, multiset(list), digest) <==> env.sha(DatasetPreimage(list)) == digest
  {
    hide DatasetPreimage;
    forall other: seq<RecordEvidence> | multiset(other) == multiset(list)
      ensures DatasetPreimage(other) == DatasetPreimage(list)
    {
      DatasetOrderIrrelevant(other, list);
    }
  }

  lemma ReplayProvedIff(env: Env, db: Db, a: Artifact)
    requires BodySound(env, db, a)
    ensures ReplayProved(env, db, a, env.restore(db.bodies[a.bodySha]).value)
       <==> ReplaySound(env, db, a, RowsOf(db.records, a.id))
  {
    hide BodySound, DigestOf, DatasetPreimage, RowsOf, Accepted, Quarantined, Bag;
    var rows := RowsOf(db.records, a.id);
    BagIsParsed(db.records, a.id);
    BagIsTaken(db.records, a.id);
    BagIsSetAside(db.records, a.id);
    DigestIff(env, Evidence(rows), a.parsedSha);
    DigestIff(env, Evidence(Accepted(rows)), a.acceptedSha);
    EvidenceSplit(rows, []);
    EvidenceSplit(Accepted(rows), []);
  }

  lemma BodyProvedIff(env: Env, db: Db, a: Artifact)
    ensures BodySound(env, db, a) <==> exists text :: BodyProved(env, db, a, text)
    ensures forall text :: BodyProved(env, db, a, text) ==>
              a.bodySha in db.bodies && env.restore(db.bodies[a.bodySha]) == Some(text)
  {
    if BodySound(env, db, a) {
      assert BodyProved(env, db, a, env.restore(db.bodies[a.bodySha]).value);
    }
  }

  lemma FetchedIff(env: Env, run: Run, a: Artifact)
    ensures FetchedLive(env, a) <==> VerifiedLiveHttp(env, a)
    ensures FetchedInTime(env, run, a) <==> InWindow(env, run, a)
    ensures AddressProved(env, a) <==> UrlSound(env, a)
    ensures JobProved(run, a, true) <==> BoundedProvenance(run, a, true)
    ensures JobProved(run, a, false) <==> BoundedProvenance(run, a, false)
  {
    assert |a.rawSha| == 64 ==> forall i :: 0 <= i < 64 ==> a.rawSha[i] in a.rawSha;
    forall c: char ensures c in "0123456789abcdef" <==> '0' <= c <= '9' || 'a' <= c <= 'f' { HexDigit(c); }
  }

  lemma HexDigit(c: char)
    ensures c in "0123456789abcdef" <==> '0' <= c <= '9' || 'a' <= c <= 'f'
  {
    if '0' <= c <= '9' {
      assert "0123456789abcdef"[c as int - '0' as int] == c;
    }
    if 'a' <= c <= 'f' {
      assert "0123456789abcdef"[10 + c as int - 'a' as int] == c;
    }
  }

  lemma ArtifactProvedIff(env: Env, db: Db, run: Run, a: Artifact)
    ensures ArtifactProved(env, db, run, a) <==> ArtifactSound(env, db, run, a, RowsOf(db.records, a.id))
  {
    hide FetchedLive, FetchedInTime, AddressProved, VerifiedLiveHttp, InWindow, UrlSound, ReplayProved, ReplaySound,
         RowsOf, BodyProved, BodySound;
    FetchedIff(env, run, a);
    BodyProvedIff(env, db, a);
    if BodySound(env, db, a) {
      ReplayProvedIff(env, db, a);
      BodyRestores(env, db, a);
    }
  }

  lemma BodyRestores(env: Env, db: Db, a: Artifact)
    requires BodySound(env, db, a)
    ensures a.bodySha in db.bodies && env.restore(db.bodies[a.bodySha]).Some?
  {
  }

  // ---------------------------------------------------------------- the whole run

  function Sum(values: seq<int>): int { if values == [] then 0 else values[0] + Sum(values[1..]) }

  /** The sizes of all bodies, one for every artifact that refers to it. */
  function BodySizes(db: Db): (sizes: seq<int>)
    requires forall a :: a in db.artifacts ==> a.bodySha in db.bodies
    ensures |sizes| == |db.artifacts|
  {
    seq(|db.artifacts|, i requires 0 <= i < |db.artifacts| =>
      assert db.artifacts[i] in db.artifacts; db.bodies[db.artifacts[i].bodySha].originalBytes)
  }

  ghost predicate ScopeProved(env: Env, scope: Scope, p: SourcePart) {
    env.fold(p.brand) == scope.brand && env.fold(p.model) == scope.model
    && match p.productionTo case None => true case Some(last) => scope.floor <= env.year(last)
  }

  /** What the seal of a bounded run stands for. */
  ghost predicate RunProved(env: Env, db: Db, run: Run, target: int, scope: Option<Scope>, allowFailed: bool) {
    && db.incomplete == 0 && db.usedArtifacts <= env.maxArtifacts && db.usedBytes <= env.maxRunBytes
    && db.artifacts != [] && |db.artifacts| <= env.maxArtifacts
    && RecordsProved(db.records)
    && |db.parts| == target && PartsProved(env, db)
    && (scope.Some? ==> forall p :: p in db.parts ==> ScopeProved(env, scope.value, p))
    && (forall a :: a in db.artifacts ==> ArtifactProved(env, db, run, a) && JobProved(run, a, allowFailed))
    && (forall a :: a in db.artifacts ==> a.bodySha in db.bodies) && Sum(BodySizes(db)) <= env.maxRunBytes
  }

  lemma {:induction false} SumSnoc(values: seq<int>, last: int)
    ensures Sum(values + [last]) == Sum(values) + last
  {
    if values != [] {
      assert (values + [last])[1..] == values[1..] + [last];
      SumSnoc(values[1..], last);
    }
  }

  lemma {:induction false} TotalIsSum(db: Db, n: nat)
    requires n <= |db.artifacts| && forall a :: a in db.artifacts ==> a.bodySha in db.bodies
    ensures TotalOriginal(db, db.artifacts[..n]) == Sum(BodySizes(db)[..n])
  {
    if n > 0 {
      assert db.artifacts[..n][..n - 1] == db.artifacts[..n - 1] && db.artifacts[n - 1] in db.artifacts;
      assert BodySizes(db)[..n] == BodySizes(db)[..n - 1] + [BodySizes(db)[n - 1]];
      TotalIsSum(db, n - 1);
      SumSnoc(BodySizes(db)[..n - 1], BodySizes(db)[n - 1]);
    }
  }

  lemma PartsProvedIff(env: Env, db: Db)
    requires Keyed(db) && RecordsProved(db.records)
    ensures PartsProved(env, db) <==> IdsAgree(db, |db.parts|) && PartsCovered(env, db)
  {
    hide PartProved, Covered, Keyed;
    if PartsProved(env, db) {
      OneRecordEach(env, db);
      forall p | p in db.parts ensures Covered(env, db, p) { CoverFromPartProved(env, db, p); }
    }
    if IdsAgree(db, |db.parts|) && PartsCovered(env, db) {
      forall p | p in db.parts ensures PartProved(env, db, p) { PartProvedFromCover(env, db, p); }
      forall r | r in db.records && r.accepted ensures exists p :: p in db.parts && r.partId == Some(p.id) {
        AcceptedMember(db.records, r);
        assert r.partId.value in SourceIds(db.parts);
      }
    }
  }

  /** The batch verifier accepts exactly the runs whose rows prove what the seal stands for. */
  lemma BatchProvedIff(env: Env, db: Db, run: Run, target: int, scope: Option<Scope>, allowFailed: bool)
    requires Keyed(db)
    ensures BatchAccepts(env, db, run, target, scope, allowFailed)
       <==> RunProved(env, db, run, target, scope, allowFailed)
  {
    hide PartsProved, PartsCovered, RecordsProved, RecordsAccepted, ArtifactProved, ArtifactSound, JobProved,
         BoundedProvenance, RowsOf, Keyed;
    RecordsProvedIff(db.records);
    if RecordsProved(db.records) {
      PartsProvedIff(env, db);
      PartCount(db);
    }
    forall a | a in db.artifacts
      ensures ArtifactProved(env, db, run, a) <==> ArtifactSound(env, db, run, a, RowsOf(db.records, a.id))
      ensures JobProved(run, a, allowFailed) <==> BoundedProvenance(run, a, allowFailed)
    {
      ArtifactProvedIff(env, db, run, a);
      FetchedIff(env, run, a);
    }
    if AllSound(env, db, run) {
      AllBodies(env, db, run);
      TotalIsSum(db, |db.artifacts|);
      assert db.artifacts[..|db.artifacts|] == db.artifacts && BodySizes(db)[..|db.artifacts|] == BodySizes(db);
    }
  }

  lemma AllBodies(env: Env, db: Db, run: Run)
    requires AllSound(env, db, run)
    ensures forall a :: a in db.artifacts ==> a.bodySha in db.bodies
  {
    forall a | a in db.artifacts ensures a.bodySha in db.bodies {
      assert ArtifactSound(env, db, run, a, RowsOf(db.records, a.id));
    }
  }

  lemma PartCount(db: Db)
    requires Keyed(db)
    ensures |SourceIds(db.parts)| == |db.parts|
  {
    DistinctIds(db.parts);
  }

  /** The streaming verifier: the same of all parts, a dataset that is not empty, and this attempt only. */
  lemma StreamProvedIff(env: Env, db: Db, run: Run)
    requires Keyed(db)
    ensures StreamAccepts(env, db, run)
       <==> RunProved(env, db, run, |db.parts|, None, false) && db.parts != []
            && forall a :: a in db.artifacts ==> a.scheduler == run.scheduler
  {
    hide BatchAccepts, StreamAccepts, Keyed;
    StreamingRefinesBatch(env, db, run);
    BatchProvedIff(env, db, run, |db.parts|, None, false);
    hide ArtifactProved, PartsProved, RecordsProved;
    if RunProved(env, db, run, |db.parts|, None, false) {
      assert forall a :: a in db.artifacts ==> JobProved(run, a, false);
    }
  }

  // ---------------------------------------------------------------- what alterations do

  /** Neither verifier seals the run, whatever target, scope and attempts are asked for. */
  ghost predicate Refused(env: Env, db: Db, run: Run) {
    && (forall target, scope, allowFailed :: !BatchAccepts(env, db, run, target, scope, allowFailed))
    && !StreamAccepts(env, db, run)
  }

  lemma UnprovedIsRefused(env: Env, db: Db, run: Run)
    requires Keyed(db)
    requires forall target, scope, allowFailed :: !RunProved(env, db, run, target, scope, allowFailed)
    ensures Refused(env, db, run)
  {
    hide RunProved, BatchAccepts, StreamAccepts, Keyed;
    forall target, scope, allowFailed ensures !BatchAccepts(env, db, run, target, scope, allowFailed) {
      BatchProvedIff(env, db, run, target, scope, allowFailed);
    }
    StreamProvedIff(env, db, run);
  }

  /** A source part whose payload changed after its evidence was taken. */
  lemma AlteredPartIsRefused(env: Env, db: Db, run: Run, target: int, scope: Option<Scope>, allowFailed: bool,
                             i: nat, p: SourcePart)
    requires Keyed(db) && BatchAccepts(env, db, run, target, scope, allowFailed)
    requires i < |db.parts| && p.id == db.parts[i].id && env.payloadSha(p) != env.payloadSha(db.parts[i])
    ensures Refused(env, db.(parts := db.parts[i := p]), run)
  {
    hide BatchAccepts, HierarchyProved, ArtifactProved, RecordsProved;
    var after := db.(parts := db.parts[i := p]);
    BatchProvedIff(env, db, run, target, scope, allowFailed);
    assert PartProved(env, db, db.parts[i]);
    PayloadDecided(env, db, after, db.parts[i], p);
    assert after.parts[i] == p && p in after.parts;
    KeyedWithPart(db, i, p);
    hide PartProved, Keyed;
    UnprovedIsRefused(env, after, run);
  }

  lemma KeyedWithPart(db: Db, i: nat, p: SourcePart)
    requires Keyed(db) && i < |db.parts| && p.id == db.parts[i].id
    ensures Keyed(db.(parts := db.parts[i := p]))
  {
  }

  lemma PayloadDecided(env: Env, db: Db, after: Db, p: SourcePart, q: SourcePart)
    requires after.records == db.records && p.id == q.id
    ensures PartProved(env, db, p) && PartProved(env, after, q) ==> env.payloadSha(p) == env.payloadSha(q)
  {
    hide HierarchyProved;
    if PartProved(env, db, p) && PartProved(env, after, q) {
      var i: nat :| OnlyRecord(db.records, p.id, i) && Agrees(env, db, p, db.records[i]);
      var j: nat :| OnlyRecord(db.records, q.id, j) && Agrees(env, after, q, db.records[j]);
      assert i == j;
    }
  }

  /** Another record in one row: it occurs once more. */
  lemma {:induction false} BagUpdate(rows: seq<RecordRow>, i: nat, r: RecordRow, keep: RecordRow -> bool)
    requires i < |rows| && keep(rows[i]) && keep(r) && r.record != rows[i].record
    ensures Bag(rows[i := r], keep)[r.record] == Bag(rows, keep)[r.record] + 1
  {
    assert rows[i := r] == rows[..i] + [r] + rows[i + 1..] && rows == rows[..i] + [rows[i]] + rows[i + 1..];
    BagAppend(rows[..i], [r] + rows[i + 1..], keep);
    BagAppend(rows[..i], [rows[i]] + rows[i + 1..], keep);
    assert rows[..i] + ([r] + rows[i + 1..]) == rows[i := r] && rows[..i] + ([rows[i]] + rows[i + 1..]) == rows;
    assert ([r] + rows[i + 1..])[1..] == rows[i + 1..] && ([rows[i]] + rows[i + 1..])[1..] == rows[i + 1..];
  }

  lemma {:induction false} BagAppend(a: seq<RecordRow>, b: seq<RecordRow>, keep: RecordRow -> bool)
    ensures Bag(a + b, keep) == Bag(a, keep) + Bag(b, keep)
  {
    if a == [] {
      assert a + b == b;
    } else {
      assert (a + b)[1..] == a[1..] + b && (a + b)[0] == a[0];
      BagAppend(a[1..], b, keep);
    }
  }

  lemma ReplayDecides(env: Env, db: Db, after: Db, run: Run, a: Artifact)
    requires ArtifactProved(env, db, run, a) && ArtifactProved(env, after, run, a) && after.bodies == db.bodies
    ensures Bag(after.records, Parsed(a.id)) == Bag(db.records, Parsed(a.id))
  {
    hide FetchedLive, FetchedInTime, AddressProved, DigestOf;
  }

  /** A stored record that is not the one the stored page parses to. */
  lemma AlteredRecordIsRefused(env: Env, db: Db, run: Run, target: int, scope: Option<Scope>, allowFailed: bool,
                               i: nat, record: RecordEvidence)
    requires Keyed(db) && BatchAccepts(env, db, run, target, scope, allowFailed)
    requires i < |db.records| && record != db.records[i].record
    ensures Refused(env, db.(records := db.records[i := db.records[i].(record := record)]), run)
  {
    hide BatchAccepts, PartProved, ArtifactProved, RecordsProved, JobProved;
    var r := db.records[i].(record := record);
    var after := db.(records := db.records[i := r]);
    BatchProvedIff(env, db, run, target, scope, allowFailed);
    assert db.records[i] in db.records;
    var a :| a in db.artifacts && a.id == r.artifact;
    assert ArtifactProved(env, db, run, a);
    BagUpdate(db.records, i, r, Parsed(a.id));
    if ArtifactProved(env, after, run, a) { ReplayDecides(env, db, after, run, a); }
    KeyedWithRecord(db, i, r);
    hide Keyed;
    UnprovedIsRefused(env, after, run);
  }

  lemma KeyedWithRecord(db: Db, i: nat, r: RecordRow)
    requires Keyed(db) && i < |db.records| && r.artifact == db.records[i].artifact
    ensures Keyed(db.(records := db.records[i := r]))
  {
    forall q | q in db.records[i := r] ensures exists a :: a in db.artifacts && a.id == q.artifact {
      assert db.records[i] in db.records;
      if q != r { assert q in db.records; }
    }
  }

  /** A stored body that does not restore to the text of its digest. */
  lemma AlteredBodyIsRefused(env: Env, db: Db, run: Run, a: Artifact, body: Body)
    requires Keyed(db) && a in db.artifacts
    requires env.restore(body).None? || env.sha(env.restore(body).value) != a.bodySha
    ensures Refused(env, db.(bodies := db.bodies[a.bodySha := body]), run)
  {
    hide ReplayProved, FetchedLive, FetchedInTime, AddressProved, PartsProved, RecordsProved, JobProved;
    var after := db.(bodies := db.bodies[a.bodySha := body]);
    assert !ArtifactProved(env, after, run, a);
    assert Keyed(after);
    hide ArtifactProved, Keyed;
    UnprovedIsRefused(env, after, run);
  }

  /** An artifact that was not fetched live, in time, by a job that counts, or under its public address. */
  lemma AlteredArtifactIsRefused(env: Env, db: Db, run: Run, i: nat, a: Artifact)
    requires Keyed(db) && i < |db.artifacts| && a.id == db.artifacts[i].id
    requires !FetchedLive(env, a) || !FetchedInTime(env, run, a) || !AddressProved(env, a) || !JobProved(run, a, true)
    ensures Refused(env, db.(artifacts := db.artifacts[i := a]), run)
  {
    hide ReplayProved, BodyProved, FetchedLive, FetchedInTime, AddressProved, PartsProved, RecordsProved;
    var after := db.(artifacts := db.artifacts[i := a]);
    assert after.artifacts[i] == a && a in after.artifacts;
    assert JobProved(run, a, false) ==> JobProved(run, a, true);
    KeyedWithArtifact(db, i, a);
    hide Keyed;
    UnprovedIsRefused(env, after, run);
  }

  lemma KeyedWithArtifact(db: Db, i: nat, a: Artifact)
    requires Keyed(db) && i < |db.artifacts| && a.id == db.artifacts[i].id
    ensures Keyed(db.(artifacts := db.artifacts[i := a]))
  {
    var after := db.artifacts[i := a];
    forall r | r in db.records ensures exists b :: b in after && b.id == r.artifact {
      var b :| b in db.artifacts && b.id == r.artifact;
      var j :| 0 <= j < |db.artifacts| && db.artifacts[j] == b;
      assert after[j] in after && after[j].id == r.artifact;
    }
  }

  // ---------------------------------------------------------------- what the seal is computed from

  function Commas(texts: seq<string>): string {
    if texts == [] then "" else if |texts| == 1 then texts[0] else texts[0] + "," + Commas(texts[1..])
  }

  /** One manifest item for every artifact, in order, with the numbers of its records. */
  function ManifestItems(env: Env, db: Db): (items: seq<string>)
    ensures |items| == |db.artifacts|
  {
    seq(|db.artifacts|, i requires 0 <= i < |db.artifacts| =>
      var a := db.artifacts[i];
      env.item(a, |Bag(db.records, Parsed(a.id))|, |Bag(db.records, Taken(a.id))|))
  }

  /** Manifest of all artifacts in order, digest of all accepted records, and the totals. */
  ghost predicate SealProved(env: Env, db: Db, scope: Option<Scope>, s: Summary) {
    && s.manifestSha == env.sha(ManifestText(env, db, scope))
    && DigestOf(env, Bag(db.records, AnyTaken()), s.datasetSha)
    && s.artifacts == |db.artifacts| && s.accepted == |db.parts|
    && (forall a :: a in db.artifacts ==> a.bodySha in db.bodies)
    && s.originalBytes == Sum(BodySizes(db)) && s.storedBytes == Sum(StoredSizes(db))
  }

  function AnyTaken(): RecordRow -> bool { (r: RecordRow) => r.accepted }

  function StoredSizes(db: Db): (sizes: seq<int>)
    requires forall a :: a in db.artifacts ==> a.bodySha in db.bodies
    ensures |sizes| == |db.artifacts|
  {
    seq(|db.artifacts|, i requires 0 <= i < |db.artifacts| =>
      assert db.artifacts[i] in db.artifacts; db.bodies[db.artifacts[i].bodySha].storedBytes)
  }

  lemma {:induction false} StoredIsSum(db: Db, n: nat)
    requires n <= |db.artifacts| && forall a :: a in db.artifacts ==> a.bodySha in db.bodies
    ensures TotalStored(db, db.artifacts[..n]) == Sum(StoredSizes(db)[..n])
  {
    if n > 0 {
      assert db.artifacts[..n][..n - 1] == db.artifacts[..n - 1] && db.artifacts[n - 1] in db.artifacts;
      assert StoredSizes(db)[..n] == StoredSizes(db)[..n - 1] + [StoredSizes(db)[n - 1]];
      StoredIsSum(db, n - 1);
      SumSnoc(StoredSizes(db)[..n - 1], StoredSizes(db)[n - 1]);
    }
  }

  lemma {:induction false} CommasSnoc(texts: seq<string>, last: string)
    ensures Commas(texts + [last]) == Commas(texts) + (if texts == [] then "" else ",") + last
  {
    if texts == [] {
      assert texts + [last] == [last] && "" + "" + last == last;
    } else {
      assert (texts + [last])[1..] == texts[1..] + [last];
      CommasSnoc(texts[1..], last);
      if |texts| == 1 {
        assert texts[1..] == [] && texts[0] + "," + ("" + "" + last) == texts[0] + "," + last;
      } else {
        assert texts[0] + "," + (Commas(texts[1..]) + "," + last) == texts[0] + "," + Commas(texts[1..]) + "," + last;
      }
    }
  }

  lemma {:induction false} ItemsAreCommas(env: Env, db: Db, n: nat)
    requires n <= |db.artifacts|
    ensures Items(env, db, db.artifacts[..n]) == Commas(ManifestItems(env, db)[..n])
  {
    hide Bag, RowsOf, Accepted;
    if n > 0 {
      var a := db.artifacts[n - 1];
      assert db.artifacts[..n][..n - 1] == db.artifacts[..n - 1];
      assert ManifestItems(env, db)[..n] == ManifestItems(env, db)[..n - 1] + [ManifestItems(env, db)[n - 1]];
      ItemsAreCommas(env, db, n - 1);
      CommasSnoc(ManifestItems(env, db)[..n - 1], ManifestItems(env, db)[n - 1]);
      ItemCounts(env, db, a);
    }
  }

  lemma ItemCounts(env: Env, db: Db, a: Artifact)
    ensures Item(env, db, a) == env.item(a, |Bag(db.records, Parsed(a.id))|, |Bag(db.records, Taken(a.id))|)
  {
    var rows := RowsOf(db.records, a.id);
    BagIsParsed(db.records, a.id);
    BagIsTaken(db.records, a.id);
    EvidenceSplit(rows, []);
    EvidenceSplit(Accepted(rows), []);
  }

  lemma {:induction false} BagIsAnyTaken(rows: seq<RecordRow>)
    ensures Bag(rows, AnyTaken()) == multiset(Evidence(Accepted(rows)))
  {
    if rows != [] {
      BagIsAnyTaken(rows[1..]);
      assert rows == [rows[0]] + rows[1..];
      AcceptedAppend([rows[0]], rows[1..]);
      assert Accepted([rows[0]]) == if rows[0].accepted then [rows[0]] else [] by { assert [rows[0]][..0] == []; }
      EvidenceSplit(Accepted([rows[0]]), Accepted(rows[1..]));
      EvidenceSplit([rows[0]], rows[1..]);
    }
  }

  function ManifestText(env: Env, db: Db, scope: Option<Scope>): string {
    var items := Commas(ManifestItems(env, db));
    match scope
    case None => "[" + items + "]"
    case Some(scope) => "{\"artifacts\":[" + items + "],\"scope\":" + env.scopeJson(scope) + "}"
  }

  lemma ManifestTextIs(env: Env, db: Db, scope: Option<Scope>)
    ensures Manifest(env, db, scope) == ManifestText(env, db, scope)
  {
    hide Items, Commas;
    ItemsAreCommas(env, db, |db.artifacts|);
    assert db.artifacts[..|db.artifacts|] == db.artifacts;
    assert ManifestItems(env, db)[..|db.artifacts|] == ManifestItems(env, db);
    var items := Commas(ManifestItems(env, db));
    if scope.Some? {
      var json := env.scopeJson(scope.value);
      assert "{\"artifacts\":" + ("[" + items + "]") + ",\"scope\":" + json + "}"
          == "{\"artifacts\":[" + items + "],\"scope\":" + json + "}";
    }
  }

  lemma BatchSealProved(env: Env, db: Db, run: Run, target: int, scope: Option<Scope>, allowFailed: bool)
    requires Keyed(db) && BatchAccepts(env, db, run, target, scope, allowFailed)
    ensures SealProved(env, db, scope, BatchSummary(env, db, scope))
  {
    hide Bag, DatasetPreimage, Manifest, ManifestText, TotalOriginal, TotalStored, Accepted, RowsOf, Keyed,
         RecordsAccepted, PartsCovered, DigestOf, Sum;
    AllBodies(env, db, run);
    TotalIsSum(db, |db.artifacts|);
    StoredIsSum(db, |db.artifacts|);
    ManifestTextIs(env, db, scope);
    assert db.artifacts[..|db.artifacts|] == db.artifacts && BodySizes(db)[..|db.artifacts|] == BodySizes(db);
    assert StoredSizes(db)[..|db.artifacts|] == StoredSizes(db);
    BagIsAnyTaken(db.records);
    DigestIff(env, Evidence(Accepted(db.records)), BatchSummary(env, db, scope).datasetSha);
    PartCount(db);
  }

  lemma StreamSealProved(env: Env, db: Db, run: Run)
    requires Keyed(db)
    ensures StreamAccepts(env, db, run) ==> SealProved(env, db, None, StreamSummary(env, db))
  {
    hide BatchAccepts, StreamAccepts, SealProved, Keyed;
    StreamingRefinesBatch(env, db, run);
    if StreamAccepts(env, db, run) {
      BatchSealProved(env, db, run, |db.parts|, None, false);
      StreamingSealsTheSameSummary(env, db);
    }
  }
}
