/**
The groups of one category in the database: a table with a unique key, an upsert that turns a
picture row into a text row in place, and a write-through cache of identities.
*/
module GroupTable {
  /** Code and uid: with the category, the unique key of a group row. */
  type Key = (string, string)

  datatype Row = Row(id: nat, name: string, url: string)

  /** `next` is the next automatic id. */
  datatype Table = Table(rows: map<Key, Row>, next: nat)

  // ---------------------------------------------------------------- upsert without a cache

  /** `INSERT … ON DUPLICATE KEY UPDATE`. */
  function Insert(t: Table, code: string, name: string, uid: string, url: string): (Table, nat) {
    if (code, uid) in t.rows then
      (t.(rows := t.rows[(code, uid) := t.rows[(code, uid)].(name := name, url := url)]), t.rows[(code, uid)].id)
    else (Table(t.rows[(code, uid) := Row(t.next, name, url)], t.next + 1), t.next)
  }

  /** A text arrives for a group that is stored as a picture only. */
  predicate Upgrades(t: Table, code: string, uid: string) {
    code != "" && uid != "" && ("", uid) in t.rows && (code, uid) !in t.rows
  }

  function Upgrade(t: Table, code: string, name: string, uid: string, url: string): (Table, nat)
    requires ("", uid) in t.rows
  {
    var id := t.rows[("", uid)].id;
    (t.(rows := (t.rows - {("", uid)})[(code, uid) := Row(id, name, url)]), id)
  }

  /** The table and the returned id of one `upsert_group` call. */
  function Upsert(t: Table, code: string, name: string, uid: string, url: string): (Table, nat) {
    if Upgrades(t, code, uid) then Upgrade(t, code, name, uid, url) else Insert(t, code, name, uid, url)
  }

  // ---------------------------------------------------------------- the cache

  class GroupIdentity {
    var byKey: map<Key, nat>
    var imageByUid: map<string, nat>

    constructor (byKey: map<Key, nat>, imageByUid: map<string, nat>)
      ensures this.byKey == byKey && this.imageByUid == imageByUid
    {
      this.byKey, this.imageByUid := byKey, imageByUid;
    }

    /** For groups with a uid the cache knows exactly the text rows, and exactly the picture rows.
        After an upgrade `byKey` keeps a stale entry with the empty code, which nobody looks up. */
    ghost predicate Mirrors(t: Table)
      reads this
    {
      && (forall code, uid :: code != "" && uid != "" ==>
            ((code, uid) in byKey <==> (code, uid) in t.rows)
            && ((code, uid) in byKey ==> byKey[(code, uid)] == t.rows[(code, uid)].id))
      && (forall uid :: uid != "" ==>
            (uid in imageByUid <==> ("", uid) in t.rows)
            && (uid in imageByUid ==> imageByUid[uid] == t.rows[("", uid)].id))
    }
  }

  class GroupRepository {
    var table: Table

    constructor (table: Table)
      ensures this.table == table
    {
      this.table := table;
    }

    /** `UPDATE … WHERE id`: the caller must not run into the unique key. */
    method UpdateRow(from: Key, to: Key, name: string, url: string)
      requires from in table.rows && to !in table.rows
      modifies this
      ensures table == old(table).(rows := (old(table.rows) - {from})[to := Row(old(table.rows)[from].id, name, url)])
    {
      var id := table.rows[from].id;
      table := table.(rows := (table.rows - {from})[to := Row(id, name, url)]);
    }

    method InsertOrUpdate(code: string, name: string, uid: string, url: string) returns (id: nat)
      modifies this
      ensures (table, id) == Insert(old(table), code, name, uid, url)
    {
      if (code, uid) in table.rows {
        id := table.rows[(code, uid)].id;
        table := table.(rows := table.rows[(code, uid) := Row(id, name, url)]);
      } else {
        id := table.next;
        table := Table(table.rows[(code, uid) := Row(id, name, url)], id + 1);
      }
    }

    method PreloadGroupIdentity() returns (identity: GroupIdentity)
      ensures fresh(identity) && identity.Mirrors(table)
    {
      var byKey: map<Key, nat> := map[];
      var imageByUid: map<string, nat> := map[];
      var remaining := table.rows.Keys;
      while remaining != {}
        invariant remaining <= table.rows.Keys
        invariant forall k :: k in byKey <==> k in table.rows.Keys - remaining && k.1 != ""
        invariant forall k :: k in byKey ==> byKey[k] == table.rows[k].id
        invariant forall uid :: uid in imageByUid <==> ("", uid) in table.rows.Keys - remaining && uid != ""
        invariant forall uid :: uid in imageByUid ==> imageByUid[uid] == table.rows[("", uid)].id
        decreases |remaining|
      {
        var key :| key in remaining;
        remaining := remaining - {key};
        if key.1 == "" { continue; }
        byKey := byKey[key := table.rows[key].id];
        if key.0 == "" { imageByUid := imageByUid[key.1 := table.rows[key].id]; }
      }
      identity := new GroupIdentity(byKey, imageByUid);
    }

    /** With or without the cache, the table and the returned id are those of the plain upsert. */
    method UpsertGroup(code: string, name: string, uid: string, url: string, identity: GroupIdentity?) returns (id: nat)
      requires identity != null ==> identity.Mirrors(table)
      modifies this, identity
      ensures (table, id) == Upsert(old(table), code, name, uid, url)
      ensures identity != null ==> identity.Mirrors(table)
    {
      if code != "" && identity != null {
        if uid != "" && uid in identity.imageByUid && (code, uid) !in identity.byKey {
          id := identity.imageByUid[uid];
          UpdateRow(("", uid), (code, uid), name, url);
          identity.imageByUid := identity.imageByUid - {uid};
          identity.byKey := identity.byKey[(code, uid) := id];
          return;
        }
      } else if code != "" {
        if uid != "" && ("", uid) in table.rows {
          if (code, uid) !in table.rows {
            id := table.rows[("", uid)].id;
            UpdateRow(("", uid), (code, uid), name, url);
            return;
          }
        }
      }
      id := InsertOrUpdate(code, name, uid, url);
      if identity != null {
        identity.byKey := identity.byKey[(code, uid) := id];
        if code == "" && uid != "" { identity.imageByUid := identity.imageByUid[uid := id]; }
      }
    }
  }

  // ---------------------------------------------------------------- sequences of calls

  datatype Call = Call(code: string, name: string, uid: string, url: string)

  function UpsertAll(t: Table, calls: seq<Call>): (Table, seq<nat>) {
    if calls == [] then (t, []) else
      var c := calls[|calls| - 1];
      var (before, ids) := UpsertAll(t, calls[..|calls| - 1]);
      var (after, id) := Upsert(before, c.code, c.name, c.uid, c.url);
      (after, ids + [id])
  }

  /** A whole category, with one preloaded cache or with none: same table, same ids. */
  method UpsertCategory(repository: GroupRepository, calls: seq<Call>, cached: bool) returns (ids: seq<nat>)
    modifies repository
    ensures (repository.table, ids) == UpsertAll(old(repository.table), calls)
  {
    hide Upsert;
    var identity: GroupIdentity? := null;
    if cached { identity := repository.PreloadGroupIdentity(); }
    ids := [];
    for i := 0 to |calls|
      invariant (repository.table, ids) == UpsertAll(old(repository.table), calls[..i])
      invariant identity != null ==> fresh(identity) && identity.Mirrors(repository.table)
    {
      assert calls[..i + 1][..i] == calls[..i];
      var id := repository.UpsertGroup(calls[i].code, calls[i].name, calls[i].uid, calls[i].url, identity);
      ids := ids + [id];
    }
    assert calls[..|calls|] == calls;
  }

  /** Ids are unique and below the next automatic id. */
  ghost predicate Numbered(t: Table) {
    && (forall k :: k in t.rows ==> t.rows[k].id < t.next)
    && (forall j, k :: j in t.rows && k in t.rows && t.rows[j].id == t.rows[k].id ==> j == k)
  }

  /** Every returned id is the id of the row that now has the key; no row loses its id, and a row
      changes its key only from picture to text of the same uid. */
  lemma {:induction false} UpsertsKeepIds(t: Table, calls: seq<Call>)
    requires Numbered(t)
    ensures var (after, ids) := UpsertAll(t, calls);
      && Numbered(after) && |ids| == |calls|
      && forall k :: k in t.rows ==>
           (k in after.rows && after.rows[k].id == t.rows[k].id)
           || (k.0 == "" && k.1 != ""
               && exists code ::
                    code != "" && (code, k.1) in after.rows && after.rows[(code, k.1)].id == t.rows[k].id)
  {
    hide Numbered;
    if calls != [] {
      var before := UpsertAll(t, calls[..|calls| - 1]).0;
      UpsertsKeepIds(t, calls[..|calls| - 1]);
      UpsertKeepsIds(before, calls[|calls| - 1]);
    }
  }

  lemma InsertNumbered(t: Table, c: Call)
    requires Numbered(t)
    ensures Numbered(Insert(t, c.code, c.name, c.uid, c.url).0)
  {
  }

  lemma UpgradeNumbered(t: Table, c: Call)
    requires Numbered(t) && Upgrades(t, c.code, c.uid)
    ensures Numbered(Upgrade(t, c.code, c.name, c.uid, c.url).0)
  {
    var after := Upgrade(t, c.code, c.name, c.uid, c.url).0;
    forall k | k in after.rows && k != (c.code, c.uid)
      ensures k in t.rows && k != ("", c.uid) && after.rows[k] == t.rows[k]
    {
    }
  }

  lemma UpsertKeepsIds(t: Table, c: Call)
    requires Numbered(t)
    ensures var (after, id) := Upsert(t, c.code, c.name, c.uid, c.url);
      && Numbered(after) && (c.code, c.uid) in after.rows && after.rows[(c.code, c.uid)].id == id
      && (forall k :: k in t.rows && k.0 != "" ==> k in after.rows && after.rows[k].id == t.rows[k].id)
      && (forall k :: k in t.rows && k !in after.rows ==>
            k == ("", c.uid) && c.uid != "" && c.code != "" && after.rows[(c.code, c.uid)].id == t.rows[k].id)
      && (forall k :: k in t.rows && k in after.rows ==> after.rows[k].id == t.rows[k].id)
  {
    InsertNumbered(t, c);
    if Upgrades(t, c.code, c.uid) { UpgradeNumbered(t, c); }
    hide Numbered;
  }
}
