/**
The group upsert under the collation of the table.  The database compares codes and uids after
folding case and accents away, the cache compares them exactly: both paths of the upsert agree
exactly as long as folding keeps different texts different.
*/
module GroupCollation {
  import opened Wrappers
  import opened GroupTable

  type Collation = string -> string

  /** A row keeps the spelling it was inserted with. */
  datatype Stored = Stored(id: nat, code: string, uid: string, name: string, url: string)

  /** The rows by what the unique key compares. */
  datatype Db = Db(rows: map<Key, Stored>, next: nat)

  function KeyOf(fold: Collation, code: string, uid: string): Key { (fold(code), fold(uid)) }

  /** Every row lies under its key, and ids are unique. */
  ghost predicate Sound(fold: Collation, db: Db) {
    && (forall k :: k in db.rows ==> k == KeyOf(fold, db.rows[k].code, db.rows[k].uid) && db.rows[k].id < db.next)
    && (forall j, k :: j in db.rows && k in db.rows && db.rows[j].id == db.rows[k].id ==> j == k)
  }

  // ---------------------------------------------------------------- the two paths

  function InsertOrUpdate(fold: Collation, db: Db, c: Call): (Db, nat) {
    var key := KeyOf(fold, c.code, c.uid);
    if key in db.rows then
      (db.(rows := db.rows[key := db.rows[key].(name := c.name, url := c.url)]), db.rows[key].id)
    else
      (Db(db.rows[key := Stored(db.next, c.code, c.uid, c.name, c.url)], db.next + 1), db.next)
  }

  /** `UPDATE … WHERE id`, which leaves the uid alone; none when it runs into the unique key. */
  function UpdateAt(fold: Collation, db: Db, at: Key, c: Call): Option<Db>
    requires at in db.rows
  {
    var row := db.rows[at].(code := c.code, name := c.name, url := c.url);
    var key := KeyOf(fold, row.code, row.uid);
    if key != at && key in db.rows then None else Some(db.(rows := (db.rows - {at})[key := row]))
  }

  /** The picture row that the first query finds; a blank uid finds none. */
  function PictureKey(fold: Collation, db: Db, uid: string): Option<Key> {
    var at := KeyOf(fold, "", uid);
    if fold(uid) != fold("") && at in db.rows then Some(at) else None
  }

  /** Without the cache: every question goes to the table. */
  function Plain(fold: Collation, db: Db, c: Call): Option<(Db, nat)> {
    var at := PictureKey(fold, db, c.uid);
    if c.code != "" && at.Some? && KeyOf(fold, c.code, c.uid) !in db.rows then
      var after := UpdateAt(fold, db, at.value, c);
      if after.Some? then Some((after.value, db.rows[at.value].id)) else None
    else Some(InsertOrUpdate(fold, db, c))
  }

  /** The dictionaries, which compare exactly. */
  datatype Cache = Cache(byKey: map<Key, nat>, imageByUid: map<string, nat>)

  ghost function RowOf(db: Db, id: nat): Option<Key> {
    if k :| k in db.rows && db.rows[k].id == id then Some(k) else None
  }

  /** With the cache: table, id and cache afterwards. */
  ghost function Cached(fold: Collation, db: Db, cache: Cache, c: Call): Option<(Db, nat, Cache)> {
    if c.code != "" && c.uid != "" && c.uid in cache.imageByUid && (c.code, c.uid) !in cache.byKey then
      var id := cache.imageByUid[c.uid];
      var at := RowOf(db, id);
      var after := if at.Some? then UpdateAt(fold, db, at.value, c) else Some(db);
      if after.None? then None
      else Some((after.value, id, Cache(cache.byKey[(c.code, c.uid) := id], cache.imageByUid - {c.uid})))
    else
      var (after, id) := InsertOrUpdate(fold, db, c);
      Some((after, id, Cache(cache.byKey[(c.code, c.uid) := id],
                             if c.code == "" && c.uid != "" then cache.imageByUid[c.uid := id] else cache.imageByUid)))
  }

  /** The row with exactly this code and uid. */
  predicate Holds(fold: Collation, db: Db, code: string, uid: string) {
    var key := KeyOf(fold, code, uid);
    key in db.rows && db.rows[key].code == code && db.rows[key].uid == uid
  }

  predicate Remembered(fold: Collation, db: Db, id: Option<nat>, code: string, uid: string) {
    (id.Some? <==> Holds(fold, db, code, uid)) && (id.Some? ==> id.value == db.rows[KeyOf(fold, code, uid)].id)
  }

  function Get<K, V>(m: map<K, V>, k: K): Option<V> { if k in m then Some(m[k]) else None }

  /** What preloading the cache makes true, and every call keeps. */
  ghost predicate Mirrors(fold: Collation, db: Db, cache: Cache) {
    && (forall code, uid :: code != "" && uid != "" ==> Remembered(fold, db, Get(cache.byKey, (code, uid)), code, uid))
    && (forall uid :: uid != "" ==> Remembered(fold, db, Get(cache.imageByUid, uid), "", uid))
  }

  // ---------------------------------------------------------------- when they agree

  /** Folding keeps the given texts apart. */
  ghost predicate TellsApart(fold: Collation, texts: set<string>) {
    forall a, b :: a in texts && b in texts && fold(a) == fold(b) ==> a == b
  }

  ghost predicate Within(db: Db, texts: set<string>) {
    forall k :: k in db.rows ==> db.rows[k].code in texts && db.rows[k].uid in texts
  }

  predicate CallWithin(c: Call, texts: set<string>) { c.code in texts && c.uid in texts }

  ghost predicate Ready(fold: Collation, db: Db, cache: Cache, texts: set<string>) {
    Sound(fold, db) && Within(db, texts) && Mirrors(fold, db, cache)
  }

  /** Both paths leave the same table and return the same id, and neither fails. */
  ghost predicate Agrees(fold: Collation, db: Db, cache: Cache, c: Call) {
    var plain, cached := Plain(fold, db, c), Cached(fold, db, cache, c);
    plain.Some? && cached.Some? && plain.value == (cached.value.0, cached.value.1)
  }

  lemma InTable(fold: Collation, db: Db, texts: set<string>, code: string, uid: string)
    requires Sound(fold, db) && Within(db, texts) && TellsApart(fold, texts) && code in texts && uid in texts
    ensures KeyOf(fold, code, uid) in db.rows <==> Holds(fold, db, code, uid)
  {
  }

  lemma RowById(fold: Collation, db: Db, k: Key)
    requires Sound(fold, db) && k in db.rows
    ensures RowOf(db, db.rows[k].id) == Some(k)
  {
    assert db.rows[k].id == db.rows[k].id;
  }

  lemma AgreesApart(fold: Collation, db: Db, cache: Cache, c: Call, texts: set<string>)
    requires Ready(fold, db, cache, texts) && "" in texts && TellsApart(fold, texts) && CallWithin(c, texts)
    ensures Agrees(fold, db, cache, c)
  {
    hide Sound, Within, TellsApart, Holds, RowOf;
    InTable(fold, db, texts, c.code, c.uid);
    InTable(fold, db, texts, "", c.uid);
    assert fold(c.uid) == fold("") <==> c.uid == "" by { SameFold(fold, texts, c.uid, ""); }
    assert c.uid != "" ==> Remembered(fold, db, Get(cache.imageByUid, c.uid), "", c.uid);
    assert c.code != "" && c.uid != "" ==> Remembered(fold, db, Get(cache.byKey, (c.code, c.uid)), c.code, c.uid);
    if c.uid in cache.imageByUid && c.uid != "" {
      var at := KeyOf(fold, "", c.uid);
      RowById(fold, db, at);
      assert db.rows[at].uid == c.uid by { HoldsSpelling(fold, db, "", c.uid); }
    }
  }

  lemma SameFold(fold: Collation, texts: set<string>, a: string, b: string)
    requires TellsApart(fold, texts) && a in texts && b in texts
    ensures fold(a) == fold(b) <==> a == b
  {
  }

  lemma HoldsSpelling(fold: Collation, db: Db, code: string, uid: string)
    requires Holds(fold, db, code, uid)
    ensures var key := KeyOf(fold, code, uid);
      key in db.rows && db.rows[key].code == code && db.rows[key].uid == uid
  {
  }

  // ---------------------------------------------------------------- any sequence of calls

  lemma InsertKeeps(fold: Collation, db: Db, c: Call, texts: set<string>)
    requires Sound(fold, db) && Within(db, texts) && CallWithin(c, texts)
    ensures var after := InsertOrUpdate(fold, db, c).0;
      Sound(fold, after) && Within(after, texts)
  {
  }

  lemma UpdateKeeps(fold: Collation, db: Db, at: Key, c: Call, texts: set<string>)
    requires Sound(fold, db) && Within(db, texts) && CallWithin(c, texts) && at in db.rows
    requires UpdateAt(fold, db, at, c).Some?
    ensures var after := UpdateAt(fold, db, at, c).value;
      Sound(fold, after) && Within(after, texts)
  {
    var after := UpdateAt(fold, db, at, c).value;
    var key := KeyOf(fold, c.code, db.rows[at].uid);
    forall k | k in after.rows && k != key ensures k in db.rows && k != at && after.rows[k] == db.rows[k] {}
  }

  lemma InsertHolds(fold: Collation, db: Db, c: Call, code: string, uid: string)
    requires KeyOf(fold, c.code, c.uid) in db.rows <==> Holds(fold, db, c.code, c.uid)
    ensures var (after, id) := InsertOrUpdate(fold, db, c);
      && (Holds(fold, after, code, uid) <==> Holds(fold, db, code, uid) || (code == c.code && uid == c.uid))
      && (Holds(fold, after, code, uid) ==>
            after.rows[KeyOf(fold, code, uid)].id
              == if code == c.code && uid == c.uid then id else db.rows[KeyOf(fold, code, uid)].id)
  {
  }

  lemma InsertMirrors(fold: Collation, db: Db, cache: Cache, c: Call, texts: set<string>)
    requires Ready(fold, db, cache, texts) && TellsApart(fold, texts) && CallWithin(c, texts)
    ensures var (after, id) := InsertOrUpdate(fold, db, c);
      Mirrors(fold, after, Cache(cache.byKey[(c.code, c.uid) := id],
        if c.code == "" && c.uid != "" then cache.imageByUid[c.uid := id] else cache.imageByUid))
  {
    var (after, id) := InsertOrUpdate(fold, db, c);
    var next := Cache(cache.byKey[(c.code, c.uid) := id],
      if c.code == "" && c.uid != "" then cache.imageByUid[c.uid := id] else cache.imageByUid);
    InTable(fold, db, texts, c.code, c.uid);
    hide Holds, Sound, Within, TellsApart, InsertOrUpdate, KeyOf;
    forall code, uid | code != "" && uid != ""
      ensures Remembered(fold, after, Get(next.byKey, (code, uid)), code, uid)
    {
      InsertHolds(fold, db, c, code, uid);
      assert Remembered(fold, db, Get(cache.byKey, (code, uid)), code, uid);
    }
    forall uid | uid != "" ensures Remembered(fold, after, Get(next.imageByUid, uid), "", uid) {
      InsertHolds(fold, db, c, "", uid);
      assert Remembered(fold, db, Get(cache.imageByUid, uid), "", uid);
    }
  }

  lemma UpdateHolds(fold: Collation, db: Db, c: Call, texts: set<string>, code: string, uid: string)
    requires Sound(fold, db) && Within(db, texts) && TellsApart(fold, texts) && "" in texts && CallWithin(c, texts)
    requires c.code != "" && Holds(fold, db, "", c.uid) && !Holds(fold, db, c.code, c.uid)
    ensures var at := KeyOf(fold, "", c.uid);
      var after := UpdateAt(fold, db, at, c);
      && after.Some?
      && (Holds(fold, after.value, code, uid) <==>
            (Holds(fold, db, code, uid) && !(code == "" && uid == c.uid)) || (code == c.code && uid == c.uid))
      && (Holds(fold, after.value, code, uid) ==>
            after.value.rows[KeyOf(fold, code, uid)].id
              == if code == c.code && uid == c.uid then db.rows[at].id else db.rows[KeyOf(fold, code, uid)].id)
  {
    InTable(fold, db, texts, c.code, c.uid);
  }

  lemma UpdateMirrors(fold: Collation, db: Db, cache: Cache, c: Call, texts: set<string>)
    requires Ready(fold, db, cache, texts) && "" in texts && TellsApart(fold, texts) && CallWithin(c, texts)
    requires c.code != "" && c.uid != "" && Holds(fold, db, "", c.uid) && !Holds(fold, db, c.code, c.uid)
    ensures var at := KeyOf(fold, "", c.uid);
      var after := UpdateAt(fold, db, at, c);
      after.Some? && Mirrors(fold, after.value, Cache(cache.byKey[(c.code, c.uid) := db.rows[at].id],
                                                      cache.imageByUid - {c.uid}))
  {
    var at := KeyOf(fold, "", c.uid);
    UpdateHolds(fold, db, c, texts, "", "");
    var after, id := UpdateAt(fold, db, at, c).value, db.rows[at].id;
    var next := Cache(cache.byKey[(c.code, c.uid) := id], cache.imageByUid - {c.uid});
    hide Holds, Sound, Within, TellsApart, UpdateAt, KeyOf;
    forall code, uid | code != "" && uid != ""
      ensures Remembered(fold, after, Get(next.byKey, (code, uid)), code, uid)
    {
      UpdateHolds(fold, db, c, texts, code, uid);
      assert Remembered(fold, db, Get(cache.byKey, (code, uid)), code, uid);
    }
    forall uid | uid != "" ensures Remembered(fold, after, Get(next.imageByUid, uid), "", uid) {
      UpdateHolds(fold, db, c, texts, "", uid);
      assert Remembered(fold, db, Get(cache.imageByUid, uid), "", uid);
    }
  }

  lemma StepKeeps(fold: Collation, db: Db, cache: Cache, c: Call, texts: set<string>)
    requires Ready(fold, db, cache, texts) && "" in texts && TellsApart(fold, texts) && CallWithin(c, texts)
    ensures Agrees(fold, db, cache, c)
    ensures Ready(fold, Plain(fold, db, c).value.0, Cached(fold, db, cache, c).value.2, texts)
  {
    AgreesApart(fold, db, cache, c, texts);
    hide Sound, Within, TellsApart, Holds, RowOf, UpdateAt, InsertOrUpdate, Mirrors;
    if c.code != "" && c.uid != "" && c.uid in cache.imageByUid && (c.code, c.uid) !in cache.byKey {
      Remembers(fold, db, cache, c);
      var at := KeyOf(fold, "", c.uid);
      HoldsSpelling(fold, db, "", c.uid);
      RowById(fold, db, at);
      UpdateMirrors(fold, db, cache, c, texts);
      UpdateKeeps(fold, db, at, c, texts);
    } else {
      InsertKeeps(fold, db, c, texts);
      InsertMirrors(fold, db, cache, c, texts);
    }
  }

  lemma Remembers(fold: Collation, db: Db, cache: Cache, c: Call)
    requires Mirrors(fold, db, cache) && c.code != "" && c.uid != ""
    ensures Remembered(fold, db, Get(cache.byKey, (c.code, c.uid)), c.code, c.uid)
    ensures Remembered(fold, db, Get(cache.imageByUid, c.uid), "", c.uid)
  {
  }

  /** A whole category: table and ids, or nothing once a call failed. */
  function PlainAll(fold: Collation, db: Db, calls: seq<Call>): Option<(Db, seq<nat>)> {
    if calls == [] then Some((db, []))
    else
      var before := PlainAll(fold, db, calls[..|calls| - 1]);
      if before.None? then None
      else
        var next := Plain(fold, before.value.0, calls[|calls| - 1]);
        if next.None? then None else Some((next.value.0, before.value.1 + [next.value.1]))
  }

  ghost function CachedAll(fold: Collation, db: Db, cache: Cache, calls: seq<Call>): Option<(Db, seq<nat>, Cache)> {
    if calls == [] then Some((db, [], cache))
    else
      var before := CachedAll(fold, db, cache, calls[..|calls| - 1]);
      if before.None? then None
      else
        var next := Cached(fold, before.value.0, before.value.2, calls[|calls| - 1]);
        if next.None? then None else Some((next.value.0, before.value.1 + [next.value.1], next.value.2))
  }

  ghost predicate AgreeAll(fold: Collation, db: Db, cache: Cache, calls: seq<Call>) {
    var plain, cached := PlainAll(fold, db, calls), CachedAll(fold, db, cache, calls);
    plain.Some? && cached.Some? && plain.value == (cached.value.0, cached.value.1)
  }

  lemma {:induction false} CategoryAgrees(fold: Collation, db: Db, cache: Cache, calls: seq<Call>, texts: set<string>)
    requires Ready(fold, db, cache, texts) && "" in texts && TellsApart(fold, texts)
    requires forall c :: c in calls ==> CallWithin(c, texts)
    ensures AgreeAll(fold, db, cache, calls)
    ensures Ready(fold, PlainAll(fold, db, calls).value.0, CachedAll(fold, db, cache, calls).value.2, texts)
  {
    hide Ready, TellsApart, CallWithin, Plain, Cached;
    if calls != [] {
      var n := |calls| - 1;
      assert calls[n] in calls && forall c :: c in calls[..n] ==> c in calls;
      CategoryAgrees(fold, db, cache, calls[..n], texts);
      StepKeeps(fold, PlainAll(fold, db, calls[..n]).value.0, CachedAll(fold, db, cache, calls[..n]).value.2, calls[n],
                texts);
    }
  }

  // ---------------------------------------------------------------- where they differ

  /** A picture of one uid. */
  function PictureOf(fold: Collation, uid: string): Db {
    Db(map[KeyOf(fold, "", uid) := Stored(0, "", uid, "", "")], 1)
  }

  function PictureCache(uid: string): Cache { Cache(map[], map[uid := 0]) }

  lemma PictureReady(fold: Collation, uid: string, texts: set<string>)
    requires "" in texts && uid in texts && uid != ""
    ensures Ready(fold, PictureOf(fold, uid), PictureCache(uid), texts)
  {
  }

  /** Two uids that fold alike: the table finds the picture of the other, the cache does not; and a uid that
      folds to nothing is blank for the table only. */
  lemma PictureDiffers(fold: Collation, a: string, b: string)
    requires a != "" && b != "" && fold(a) == fold(b) && (a != b || fold(b) == fold(""))
    ensures exists uid :: uid in {a, b} && !Agrees(fold, PictureOf(fold, uid), PictureCache(uid), Call(b, "", b, ""))
  {
    var c := Call(b, "", b, "");
    if fold(b) == fold("") {
      var db, key := PictureOf(fold, b), KeyOf(fold, "", b);
      RowIsPicture(fold, b);
      assert Plain(fold, db, c).value.0.rows[key].code == "";
      assert Cached(fold, db, PictureCache(b), c).value.0.rows[key].code == b;
    } else {
      var db := PictureOf(fold, a);
      assert KeyOf(fold, "", a) !in Plain(fold, db, c).value.0.rows;
      assert KeyOf(fold, "", a) in Cached(fold, db, PictureCache(a), c).value.0.rows;
    }
  }

  lemma RowIsPicture(fold: Collation, uid: string)
    ensures RowOf(PictureOf(fold, uid), 0) == Some(KeyOf(fold, "", uid))
  {
    var db := PictureOf(fold, uid);
    assert KeyOf(fold, "", uid) in db.rows && db.rows[KeyOf(fold, "", uid)].id == 0;
  }

  /** For texts that may appear as codes and uids, blank included: cached and uncached upsert agree on every
      table, mirroring cache and call exactly when folding keeps these texts different. */
  lemma PathsAgreeIff(fold: Collation, texts: set<string>)
    requires "" in texts
    ensures (forall db, cache, c ::
               Ready(fold, db, cache, texts) && CallWithin(c, texts) ==> Agrees(fold, db, cache, c))
       <==> TellsApart(fold, texts)
  {
    hide Ready, Agrees;
    if TellsApart(fold, texts) {
      forall db, cache, c | Ready(fold, db, cache, texts) && CallWithin(c, texts) ensures Agrees(fold, db, cache, c) {
        StepKeeps(fold, db, cache, c, texts);
      }
    } else {
      var x, y :| x in texts && y in texts && fold(x) == fold(y) && x != y;
      var a, b := if x == "" then y else x, if y == "" then x else y;
      PictureReady(fold, a, texts);
      PictureReady(fold, b, texts);
      PictureDiffers(fold, a, b);
      assert CallWithin(Call(b, "", b, ""), texts);
    }
  }

  /** Without the cache nothing runs into the unique key; with it exactly a text that is new to the
      dictionary, while its uid has a remembered picture, but meets the key of another row. */
  lemma {:induction false} OnlyTheCacheFails(fold: Collation, db: Db, cache: Cache, c: Call)
    requires Sound(fold, db) && Mirrors(fold, db, cache)
    ensures Plain(fold, db, c).Some?
    ensures Cached(fold, db, cache, c).None? <==>
      && c.code != "" && c.uid != "" && fold(c.code) != fold("")
      && Spelled(db, (fold(""), fold(c.uid)), "", c.uid)
      && (fold(c.code), fold(c.uid)) in db.rows && !Spelled(db, (fold(c.code), fold(c.uid)), c.code, c.uid)
  {
    if c.code != "" && c.uid != "" {
      Remembers(fold, db, cache, c);
      if Spelled(db, (fold(""), fold(c.uid)), "", c.uid) { RowById(fold, db, (fold(""), fold(c.uid))); }
    }
  }

  /** The row under the key was inserted, or last updated, with exactly this code and uid. */
  predicate Spelled(db: Db, key: Key, code: string, uid: string) {
    key in db.rows && db.rows[key].code == code && db.rows[key].uid == uid
  }

  // ---------------------------------------------------------------- the exact table

  function Exactly(): Collation { (text: string) => text }

  function TableOf(db: Db): Table {
    Table(map k | k in db.rows :: Row(db.rows[k].id, db.rows[k].name, db.rows[k].url), db.next)
  }

  /** Where nothing is folded, this is the upsert of `GroupTable`. */
  lemma ExactIsUpsert(db: Db, c: Call)
    requires Sound(Exactly(), db)
    ensures var after := Plain(Exactly(), db, c);
      after.Some? && (TableOf(after.value.0), after.value.1) == Upsert(TableOf(db), c.code, c.name, c.uid, c.url)
  {
    var after, next := Plain(Exactly(), db, c).value.0, Upsert(TableOf(db), c.code, c.name, c.uid, c.url).0;
    forall k
      ensures k in TableOf(after).rows <==> k in next.rows
      ensures k in next.rows ==> TableOf(after).rows[k] == next.rows[k]
    {
    }
    assert TableOf(after).rows == next.rows;
  }
}
