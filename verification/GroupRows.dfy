/**
What a sequence of group upserts leaves in the table, told from the calls: which rows there are, what
they say, and whose ids they have.
*/
module GroupRows {
  import opened GroupTable

  function KeyOf(c: Call): Key { (c.code, c.uid) }

  // ---------------------------------------------------------------- one call

  /** The call turns a stored picture into a text. */
  predicate TakesPicture(t: Table, c: Call) {
    ("", c.uid) in t.rows && c.uid != "" && c.code != "" && KeyOf(c) !in t.rows
  }

  /** One call writes one row and removes at most the picture whose id it takes over. */
  lemma UpsertMeans(t: Table, c: Call)
    ensures var (after, id) := Upsert(t, c.code, c.name, c.uid, c.url);
      && KeyOf(c) in after.rows && after.rows[KeyOf(c)] == Row(id, c.name, c.url)
      && (forall k :: k != KeyOf(c) ==>
            (k in after.rows <==> k in t.rows && !(TakesPicture(t, c) && k == ("", c.uid)))
            && (k in after.rows ==> after.rows[k] == t.rows[k]))
      && id == (if KeyOf(c) in t.rows then t.rows[KeyOf(c)].id
                else if TakesPicture(t, c) then t.rows[("", c.uid)].id else t.next)
      && after.next == t.next + if KeyOf(c) in t.rows || TakesPicture(t, c) then 0 else 1
  {
  }

  // ---------------------------------------------------------------- many calls

  /** Call `i` is the last one for the key. */
  ghost predicate LastFor(calls: seq<Call>, i: int, k: Key) {
    0 <= i < |calls| && KeyOf(calls[i]) == k && forall j :: i < j < |calls| ==> KeyOf(calls[j]) != k
  }

  /** The key is in the table before call `n`, or was called for earlier. */
  ghost predicate HeldBefore(t: Table, calls: seq<Call>, n: int, k: Key) {
    k in t.rows || exists j :: 0 <= j < n && j < |calls| && KeyOf(calls[j]) == k
  }

  /** The picture was there at `i` (before all calls at -1), and no later call brought a new text for it. */
  ghost predicate StandsSince(t: Table, calls: seq<Call>, i: int, uid: string) {
    && -1 <= i < |calls|
    && (if i == -1 then ("", uid) in t.rows else KeyOf(calls[i]) == ("", uid))
    && forall j :: i < j < |calls| && calls[j].uid == uid && calls[j].code != "" ==>
         HeldBefore(t, calls, j, KeyOf(calls[j]))
  }

  ghost predicate PictureStands(t: Table, calls: seq<Call>, uid: string) {
    exists i :: StandsSince(t, calls, i, uid)
  }

  /** A row is there if it was or was called for, and a picture of a known uid only until a new text for it. */
  ghost predicate ThereAfter(t: Table, calls: seq<Call>, k: Key) {
    if k.0 == "" && k.1 != "" then PictureStands(t, calls, k.1) else HeldBefore(t, calls, |calls|, k)
  }

  predicate SaysAs(row: Row, calls: seq<Call>, i: int) {
    0 <= i < |calls| && row.name == calls[i].name && row.url == calls[i].url
  }

  ghost predicate SaysAfter(t: Table, calls: seq<Call>, k: Key, row: Row) {
    if exists i :: LastFor(calls, i, k)
    then exists i :: LastFor(calls, i, k) && SaysAs(row, calls, i)
    else k in t.rows && row.name == t.rows[k].name && row.url == t.rows[k].url
  }

  ghost predicate RowsSay(t: Table, calls: seq<Call>, rows: map<Key, Row>) {
    forall k :: k in rows ==> SaysAfter(t, calls, k, rows[k])
  }

  lemma LastNext(calls: seq<Call>, c: Call, k: Key)
    ensures LastFor(calls + [c], |calls|, k) <==> KeyOf(c) == k
    ensures forall i :: i < |calls| ==> (LastFor(calls + [c], i, k) <==> LastFor(calls, i, k) && KeyOf(c) != k)
  {
    var all := calls + [c];
    assert all[|calls|] == c && forall j :: 0 <= j < |calls| ==> all[j] == calls[j];
  }

  lemma HeldNext(t: Table, calls: seq<Call>, c: Call, k: Key)
    ensures forall n :: n <= |calls| ==> (HeldBefore(t, calls + [c], n, k) <==> HeldBefore(t, calls, n, k))
    ensures HeldBefore(t, calls + [c], |calls| + 1, k) <==> HeldBefore(t, calls, |calls|, k) || KeyOf(c) == k
  {
    var all := calls + [c];
    assert all[|calls|] == c && forall j :: 0 <= j < |calls| ==> all[j] == calls[j];
  }

  lemma StandsNext(t: Table, calls: seq<Call>, c: Call, uid: string)
    ensures PictureStands(t, calls + [c], uid)
       <==> KeyOf(c) == ("", uid)
              || (PictureStands(t, calls, uid)
                  && !(c.uid == uid && c.code != "" && !HeldBefore(t, calls, |calls|, KeyOf(c))))
  {
    var all, n := calls + [c], |calls|;
    assert all[n] == c && forall j :: 0 <= j < n ==> all[j] == calls[j];
    forall j, k | j <= n ensures HeldBefore(t, all, j, k) <==> HeldBefore(t, calls, j, k) { HeldNext(t, calls, c, k); }
    hide HeldBefore;
    if KeyOf(c) == ("", uid) { assert StandsSince(t, all, n, uid); }
    if PictureStands(t, all, uid) && KeyOf(c) != ("", uid) {
      var i :| StandsSince(t, all, i, uid);
      assert StandsSince(t, calls, i, uid);
    }
    if PictureStands(t, calls, uid) && !(c.uid == uid && c.code != "" && !HeldBefore(t, calls, n, KeyOf(c))) {
      var i :| StandsSince(t, calls, i, uid);
      assert StandsSince(t, all, i, uid);
    }
  }

  /** A text row is there before a call exactly when its key was held. */
  lemma ThereNext(t: Table, calls: seq<Call>, c: Call, before: Table, k: Key)
    requires forall k :: k in before.rows <==> ThereAfter(t, calls, k)
    ensures k in Upsert(before, c.code, c.name, c.uid, c.url).0.rows <==> ThereAfter(t, calls + [c], k)
  {
    hide Upsert, HeldBefore, PictureStands;
    UpsertMeans(before, c);
    HeldNext(t, calls, c, k);
    StandsNext(t, calls, c, k.1);
    assert ("", c.uid) in before.rows <==> ThereAfter(t, calls, ("", c.uid));
    assert KeyOf(c) in before.rows <==> ThereAfter(t, calls, KeyOf(c));
  }

  lemma SaysNext(t: Table, calls: seq<Call>, c: Call, before: Table, k: Key)
    requires RowsSay(t, calls, before.rows)
    requires k in Upsert(before, c.code, c.name, c.uid, c.url).0.rows
    ensures SaysAfter(t, calls + [c], k, Upsert(before, c.code, c.name, c.uid, c.url).0.rows[k])
  {
    hide Upsert, LastFor;
    UpsertMeans(before, c);
    LastNext(calls, c, k);
    var row := Upsert(before, c.code, c.name, c.uid, c.url).0.rows[k];
    if KeyOf(c) == k {
      assert LastFor(calls + [c], |calls|, k) && SaysAs(row, calls + [c], |calls|);
    } else {
      assert SaysAfter(t, calls, k, row);
      if i :| LastFor(calls, i, k) && SaysAs(row, calls, i) {
        assert LastFor(calls + [c], i, k) && SaysAs(row, calls + [c], i);
      }
      if i :| LastFor(calls + [c], i, k) {
        LastInside(calls + [c], i, k);
        assert LastFor(calls, i, k);
      }
    }
  }

  lemma LastInside(calls: seq<Call>, i: int, k: Key)
    ensures LastFor(calls, i, k) ==> 0 <= i < |calls|
  {
  }

  /** After any calls: which rows there are, and what each of them says. */
  lemma {:induction false} UpsertsMean(t: Table, calls: seq<Call>)
    ensures forall k :: k in UpsertAll(t, calls).0.rows <==> ThereAfter(t, calls, k)
    ensures RowsSay(t, calls, UpsertAll(t, calls).0.rows)
  {
    hide Upsert, ThereAfter, SaysAfter;
    if calls == [] {
      NoCalls(t);
    } else {
      var first, c := calls[..|calls| - 1], calls[|calls| - 1];
      UpsertsMean(t, first);
      var before := UpsertAll(t, first).0;
      assert first + [c] == calls;
      forall k ensures k in UpsertAll(t, calls).0.rows <==> ThereAfter(t, calls, k) {
        ThereNext(t, first, c, before, k);
      }
      forall k | k in UpsertAll(t, calls).0.rows ensures SaysAfter(t, calls, k, UpsertAll(t, calls).0.rows[k]) {
        SaysNext(t, first, c, before, k);
      }
    }
  }

  lemma NoCalls(t: Table)
    ensures forall k :: k in t.rows <==> ThereAfter(t, [], k)
    ensures RowsSay(t, [], t.rows)
  {
    forall k ensures k in t.rows <==> ThereAfter(t, [], k) {
      assert StandsSince(t, [], -1, k.1) <==> ("", k.1) in t.rows;
    }
  }
}
