/** The local record database: one table of packing records keyed by an
    auto-increment id (`++id`), and the version-2 schema upgrade that fills
    in the upload fields of records written before they existed. */
module Store {
  import opened Types

  /** Base of the tracking link the upgrade gives records without one. */
  const TrackingBase: string := "https://track.dobybot-clone.com/v/"

  /** The fields the upgrade must leave alone. */
  predicate SameCoreFields(a: PackingRecord, b: PackingRecord) {
    && a.id == b.id
    && a.orderId == b.orderId
    && a.timestamp == b.timestamp
    && a.videoBlob == b.videoBlob
    && a.duration == b.duration
    && a.isFlagged == b.isFlagged
    && a.aiAnalysis == b.aiAnalysis
    && a.r2Key == b.r2Key
  }

  /** The upgrade callback applied to one record: a missing upload status
      becomes `completed`, a missing or empty public link becomes the
      tracking link of the order; everything else stays. */
  function Migrated(r: PackingRecord): (m: PackingRecord)
    ensures SameCoreFields(m, r)
    ensures m.uploadStatus.Some? && Truthy(m.publicUrl)
    ensures r.uploadStatus.None? ==> m.uploadStatus == Some(StatusCompleted)
    ensures r.uploadStatus.Some? ==> m.uploadStatus == r.uploadStatus
    ensures !Truthy(r.publicUrl) ==> m.publicUrl == Some(TrackingBase + r.orderId)
    ensures Truthy(r.publicUrl) ==> m.publicUrl == r.publicUrl
  {
    var withStatus := if r.uploadStatus.None? then r.(uploadStatus := Some(StatusCompleted)) else r;
    if !Truthy(withStatus.publicUrl) then withStatus.(publicUrl := Some(TrackingBase + r.orderId))
    else withStatus
  }

  /** Running the upgrade callback on its own output changes nothing. */
  lemma MigratedIdempotent(r: PackingRecord)
    ensures Migrated(Migrated(r)) == Migrated(r)
  {
  }

  /** A record is left untouched by the upgrade exactly when it already
      has an upload status and a non-empty public link. */
  lemma MigratedFixpoint(r: PackingRecord)
    ensures Migrated(r) == r <==> r.uploadStatus.Some? && Truthy(r.publicUrl)
  {
  }

  /** The table after `update(key, { aiAnalysis: text })`. */
  function WithAnalysis(rs: seq<PackingRecord>, key: nat, text: string): (out: seq<PackingRecord>)
    ensures |out| == |rs|
    ensures forall i :: 0 <= i < |rs| ==> out[i].id == rs[i].id
    ensures forall i :: 0 <= i < |rs| && rs[i].id != key ==> out[i] == rs[i]
    ensures forall i :: 0 <= i < |rs| && rs[i].id == key ==> out[i] == rs[i].(aiAnalysis := Some(text))
  {
    seq(|rs|, i requires 0 <= i < |rs| =>
      if rs[i].id == key then rs[i].(aiAnalysis := Some(text)) else rs[i])
  }

  /** Primary keys strictly ascend along the table. */
  ghost predicate IdsAscending(rs: seq<PackingRecord>) {
    forall i, j :: 0 <= i < j < |rs| ==> rs[i].id < rs[j].id
  }

  /** The `records` table. `records` lists the stored rows in primary-key
      order; `nextId` is the key generator behind `++id`. */
  class RecordStore {
    var records: seq<PackingRecord>
    var nextId: nat

    ghost predicate Valid()
      reads this
    {
      && nextId >= 1
      && IdsAscending(records)
      && forall i :: 0 <= i < |records| ==> 1 <= records[i].id < nextId
    }

    /** An empty table whose first key will be 1. */
    constructor ()
      ensures Valid() && records == [] && nextId == 1
    {
      records := [];
      nextId := 1;
    }

    /** `db.records.add(r)`: stores `r` under a fresh key, greater than
        every key already in the table, and returns that key. */
    method Add(r: PackingRecord) returns (key: nat)
      requires Valid()
      modifies this
      ensures Valid()
      ensures key == old(nextId) && nextId == key + 1
      ensures records == old(records) + [r.(id := key)]
      ensures forall i :: 0 <= i < |old(records)| ==> old(records)[i].id < key
    {
      key := nextId;
      records := records + [r.(id := key)];
      nextId := nextId + 1;
    }

    /** `db.records.orderBy('id').last()`: the record with the greatest
        key, or nothing when the table is empty. */
    method LastById() returns (last: Option<PackingRecord>)
      requires Valid()
      ensures last.None? <==> records == []
      ensures last.Some? ==> last.value == records[|records| - 1]
      ensures last.Some? ==> forall i :: 0 <= i < |records| ==> records[i].id <= last.value.id
    {
      if records == [] {
        last := None;
      } else {
        last := Some(records[|records| - 1]);
      }
    }

    /** `db.records.update(key, { aiAnalysis: text })`: sets the note of the
        record stored under `key`, if there is one; no other record or field
        changes. */
    method UpdateAnalysis(key: nat, text: string)
      requires Valid()
      modifies this
      ensures Valid() && nextId == old(nextId)
      ensures records == WithAnalysis(old(records), key, text)
    {
      records := WithAnalysis(records, key, text);
    }

    /** The version-2 upgrade: `toCollection().modify(...)` rewrites every
        stored record in place with `Migrated`, in key order; no record is
        added or removed and the key generator is untouched. */
    method Upgrade()
      requires Valid()
      modifies this
      ensures Valid() && nextId == old(nextId)
      ensures |records| == |old(records)|
      ensures forall i :: 0 <= i < |records| ==> records[i] == Migrated(old(records)[i])
    {
      var i := 0;
      while i < |records|
        invariant 0 <= i <= |records| == |old(records)|
        invariant nextId == old(nextId)
        invariant forall k :: 0 <= k < |records| ==> records[k].id == old(records)[k].id
        invariant forall k :: 0 <= k < i ==> records[k] == Migrated(old(records)[k])
        invariant forall k :: i <= k < |records| ==> records[k] == old(records)[k]
      {
        records := records[i := Migrated(records[i])];
        i := i + 1;
      }
    }
  }
}
