/**
The resume keys of the vehicles on one page.  Parsed vehicles differ in their specification, and the
text that is digested determines model and specification, so two keys agree only where the digest
itself collides.
*/
module VehicleKeys {
  import opened Wrappers
  import opened CatalogParse
  import Canonical
  import Dispatch

  type Digest = string -> string

  function VehicleKey(digest: Digest, modelId: int, columns: seq<string>): string {
    "v5:" + digest(Canonical.IdentityPreimage(modelId, columns))
  }

  lemma SameKey(digest: Digest, modelId: int, a: seq<string>, b: seq<string>)
    ensures VehicleKey(digest, modelId, a) == VehicleKey(digest, modelId, b)
       <==> digest(Canonical.IdentityPreimage(modelId, a)) == digest(Canonical.IdentityPreimage(modelId, b))
  {
    assert VehicleKey(digest, modelId, a)[3..] == digest(Canonical.IdentityPreimage(modelId, a));
    assert VehicleKey(digest, modelId, b)[3..] == digest(Canonical.IdentityPreimage(modelId, b));
  }

  function ToPlan(digest: Digest, modelId: int, records: seq<VehicleRecord>, endYear: VehicleRecord -> Option<int>)
      : (vehicles: seq<Dispatch.Vehicle>)
    ensures |vehicles| == |records|
    ensures forall i :: 0 <= i < |records| ==>
      vehicles[i] == Dispatch.Vehicle(VehicleKey(digest, modelId, records[i].columns), endYear(records[i]))
  {
    seq(|records|, i requires 0 <= i < |records| =>
      Dispatch.Vehicle(VehicleKey(digest, modelId, records[i].columns), endYear(records[i])))
  }

  lemma {:induction false} DistinctColumns(records: seq<VehicleRecord>)
    ensures forall r :: r in Distinct(records) ==> r.columns in Columns(records)
    ensures forall i, j :: 0 <= i < j < |Distinct(records)| ==>
      Distinct(records)[i].columns != Distinct(records)[j].columns
  {
    if records != [] {
      var n := |records| - 1;
      DistinctColumns(records[..n]);
      assert records == records[..n] + [records[n]];
      assert Columns(records) == Columns(records[..n]) + {records[n].columns};
      assert forall i :: 0 <= i < |Distinct(records[..n])| ==> Distinct(records[..n])[i] in Distinct(records[..n]);
    }
  }

  /** The digest takes one value on two different texts of the page. */
  ghost predicate Collides(digest: Digest, modelId: int, records: seq<VehicleRecord>) {
    exists a, b :: a in Columns(records) && b in Columns(records) && CollidesAt(digest, modelId, a, b)
  }

  predicate CollidesAt(digest: Digest, modelId: int, a: seq<string>, b: seq<string>) {
    var s, t := Canonical.IdentityPreimage(modelId, a), Canonical.IdentityPreimage(modelId, b);
    s != t && digest(s) == digest(t)
  }

  /** The vehicles that a page hands to the dispatcher have different keys, exactly when the digest
      does not collide on them. */
  lemma ParsedKeysAreDifferentIff(digest: Digest, modelId: int, records: seq<VehicleRecord>,
                                  endYear: VehicleRecord -> Option<int>)
    ensures Dispatch.AllDifferent(Dispatch.Keys(ToPlan(digest, modelId, Distinct(records), endYear)))
       <==> !Collides(digest, modelId, Distinct(records))
  {
    DistinctColumns(records);
    var out := Distinct(records);
    var keys := Dispatch.Keys(ToPlan(digest, modelId, out, endYear));
    forall i, j | 0 <= i < j < |out|
      ensures keys[i] == keys[j] <==> CollidesAt(digest, modelId, out[i].columns, out[j].columns)
    {
      Canonical.IdentityPreimageIsInjective(modelId, out[i].columns, modelId, out[j].columns);
      SameKey(digest, modelId, out[i].columns, out[j].columns);
    }
    if Collides(digest, modelId, out) {
      var a, b :| a in Columns(out) && b in Columns(out) && CollidesAt(digest, modelId, a, b);
      var i :| 0 <= i < |out| && out[i].columns == a;
      var j :| 0 <= j < |out| && out[j].columns == b;
      assert keys[if i < j then i else j] == keys[if i < j then j else i];
    } else {
      forall i, j | 0 <= i < j < |out| ensures keys[i] != keys[j] {
        assert out[i].columns in Columns(out) && out[j].columns in Columns(out);
      }
    }
  }
}
