/**
 * RLPPTM upgrade 1.18.1 => 1.18.2: every live facility gets a DHASH site
 * tag holding the verification hash of its approval (none unless the
 * STATUS tag is APPROVED), and `update_mgrinfo` is called for the
 * organisations.
 */
module Upgrade1181 {
  import opened Wrappers
  import opened Helpers

  /**
   * A row of the facility query: a live facility with the value of its
   * STATUS tag and the DHASH tag it already has (both left joins); the
   * DHASH tag is given by its position in the site tag table.
   */
  datatype HashRow = HashRow(siteId: int, locationId: Option<int>, status: Option<string>, dhashTag: Option<nat>)

  /**
   * `vhash`: the approval hash of the facility when its STATUS is
   * APPROVED, none otherwise; `approvalHash` stands for
   * `facility_approval_hash`, of which the script keeps the second part.
   */
  function VHash(row: HashRow, approvalHash: (int, Option<int>) -> string): (v: Option<string>)
    ensures v.Some? <==> row.status == Some("APPROVED")
    ensures v.Some? ==> v.value == approvalHash(row.siteId, row.locationId)
  {
    if row.status == Some("APPROVED") then Some(approvalHash(row.siteId, row.locationId)) else None
  }

  predicate HasDHash(row: HashRow) {
    row.dhashTag.Some?
  }

  /** The query can only point at tags that exist. */
  predicate RefsValid(tags: seq<SiteTag>, rows: seq<HashRow>) {
    forall row :: row in rows && row.dhashTag.Some? ==> row.dhashTag.value < |tags|
  }

  /** The site tag table after one row: the DHASH tag is updated, or a new one is inserted. */
  function Upsert(tags: seq<SiteTag>, row: HashRow, approvalHash: (int, Option<int>) -> string): seq<SiteTag>
    requires row.dhashTag.Some? ==> row.dhashTag.value < |tags|
  {
    var vhash := VHash(row, approvalHash);
    if row.dhashTag.Some? then tags[row.dhashTag.value := tags[row.dhashTag.value].(value := vhash)]
    else tags + [SiteTag(row.siteId, "DHASH", vhash, false)]
  }

  /** The site tag table after the loop over `rows`. */
  function Hashes(tags: seq<SiteTag>, rows: seq<HashRow>, approvalHash: (int, Option<int>) -> string): (r: seq<SiteTag>)
    requires RefsValid(tags, rows)
    ensures |r| == |tags| + CountIf(rows, (row: HashRow) => !HasDHash(row))
  {
    if rows == [] then tags
    else
      var n := |rows| - 1;
      assert rows == rows[..n] + [rows[n]];
      FilterAppend(rows[..n], [rows[n]], (row: HashRow) => !HasDHash(row));
      Upsert(Hashes(tags, rows[..n], approvalHash), rows[n], approvalHash)
  }

  /** The last row of a non-empty loop. */
  lemma HashesSnoc(tags: seq<SiteTag>, rows: seq<HashRow>, approvalHash: (int, Option<int>) -> string)
    requires RefsValid(tags, rows) && rows != []
    ensures RefsValid(tags, rows[..|rows| - 1])
    ensures forall row :: row in rows <==> row in rows[..|rows| - 1] || row == rows[|rows| - 1]
    ensures Hashes(tags, rows, approvalHash) == Upsert(Hashes(tags, rows[..|rows| - 1], approvalHash), rows[|rows| - 1], approvalHash)
  {
    assert rows == rows[..|rows| - 1] + [rows[|rows| - 1]];
  }

  /** The existing tags: only values change, each to the hash of a row pointing at the tag. */
  lemma {:induction false} HashesExisting(tags: seq<SiteTag>, rows: seq<HashRow>, approvalHash: (int, Option<int>) -> string)
    requires RefsValid(tags, rows)
    ensures var r := Hashes(tags, rows, approvalHash);
            && (forall j :: 0 <= j < |tags| ==> r[j] == tags[j].(value := r[j].value))
            && (forall j :: 0 <= j < |tags| && (forall row :: row in rows ==> row.dhashTag != Some(j)) ==> r[j] == tags[j])
            && (forall j :: 0 <= j < |tags| && r[j] != tags[j] ==>
                  exists row :: row in rows && row.dhashTag == Some(j) && r[j].value == VHash(row, approvalHash))
  {
    if rows != [] {
      var n := |rows| - 1;
      var init, last := rows[..n], rows[n];
      HashesSnoc(tags, rows, approvalHash);
      HashesExisting(tags, init, approvalHash);
      var t := Hashes(tags, init, approvalHash);
      var r := Upsert(t, last, approvalHash);
      forall j | 0 <= j < |tags|
        ensures r[j] == tags[j].(value := r[j].value)
        ensures (forall row :: row in rows ==> row.dhashTag != Some(j)) ==> r[j] == tags[j]
        ensures r[j] != tags[j] ==> exists row :: row in rows && row.dhashTag == Some(j) && r[j].value == VHash(row, approvalHash)
      {
        if last.dhashTag != Some(j) {
          assert r[j] == t[j];
        }
      }
    }
  }

  /** The appended tags: one DHASH tag for each row without one, and nothing else. */
  lemma HashesNew(tags: seq<SiteTag>, rows: seq<HashRow>, approvalHash: (int, Option<int>) -> string)
    requires RefsValid(tags, rows)
    ensures var r := Hashes(tags, rows, approvalHash);
            && (forall k :: |tags| <= k < |r| ==>
                  && r[k].tag == "DHASH" && !r[k].deleted
                  && exists row :: row in rows && !HasDHash(row) && r[k].siteId == row.siteId && r[k].value == VHash(row, approvalHash))
            && (forall row :: row in rows && !HasDHash(row) ==> SiteTag(row.siteId, "DHASH", VHash(row, approvalHash), false) in r[|tags|..])
  {
    HashesNewOnly(tags, rows, approvalHash);
    HashesNewCover(tags, rows, approvalHash);
  }

  lemma {:induction false} HashesNewOnly(tags: seq<SiteTag>, rows: seq<HashRow>, approvalHash: (int, Option<int>) -> string)
    requires RefsValid(tags, rows)
    ensures var r := Hashes(tags, rows, approvalHash);
            forall k :: |tags| <= k < |r| ==>
              && r[k].tag == "DHASH" && !r[k].deleted
              && exists row :: row in rows && !HasDHash(row) && r[k].siteId == row.siteId && r[k].value == VHash(row, approvalHash)
  {
    if rows != [] {
      var n := |rows| - 1;
      var init, last := rows[..n], rows[n];
      HashesSnoc(tags, rows, approvalHash);
      HashesNewOnly(tags, init, approvalHash);
      var t := Hashes(tags, init, approvalHash);
      var r := Upsert(t, last, approvalHash);
      if last.dhashTag.Some? {
        assert forall k :: |tags| <= k < |r| ==> r[k] == t[k];
      } else {
        assert r == t + [SiteTag(last.siteId, "DHASH", VHash(last, approvalHash), false)];
      }
    }
  }

  lemma {:induction false} HashesNewCover(tags: seq<SiteTag>, rows: seq<HashRow>, approvalHash: (int, Option<int>) -> string)
    requires RefsValid(tags, rows)
    ensures var r := Hashes(tags, rows, approvalHash);
            forall row :: row in rows && !HasDHash(row) ==> SiteTag(row.siteId, "DHASH", VHash(row, approvalHash), false) in r[|tags|..]
  {
    if rows != [] {
      var n := |rows| - 1;
      var init, last := rows[..n], rows[n];
      HashesSnoc(tags, rows, approvalHash);
      HashesNewCover(tags, init, approvalHash);
      var t := Hashes(tags, init, approvalHash);
      var r := Upsert(t, last, approvalHash);
      if last.dhashTag.Some? {
        assert r[|tags|..] == t[|tags|..];
      } else {
        var added := SiteTag(last.siteId, "DHASH", VHash(last, approvalHash), false);
        assert r == t + [added];
        assert r[|tags|..] == t[|tags|..] + [added];
      }
    }
  }

  /**
   * The upsert keeps every existing tag except for its value; a tag that
   * some row points at holds the hash of such a row, one that no row points
   * at is unchanged; and the new tags are DHASH tags, each with the site
   * and hash of a row that had none, every such row having one.
   */
  lemma HashesEffect(tags: seq<SiteTag>, rows: seq<HashRow>, approvalHash: (int, Option<int>) -> string)
    requires RefsValid(tags, rows)
    ensures var r := Hashes(tags, rows, approvalHash);
            && (forall j :: 0 <= j < |tags| ==> r[j] == tags[j].(value := r[j].value))
            && (forall j :: 0 <= j < |tags| && (forall row :: row in rows ==> row.dhashTag != Some(j)) ==> r[j] == tags[j])
            && (forall j :: 0 <= j < |tags| && r[j] != tags[j] ==>
                  exists row :: row in rows && row.dhashTag == Some(j) && r[j].value == VHash(row, approvalHash))
            && (forall k :: |tags| <= k < |r| ==>
                  && r[k].tag == "DHASH" && !r[k].deleted
                  && exists row :: row in rows && !HasDHash(row) && r[k].siteId == row.siteId && r[k].value == VHash(row, approvalHash))
            && (forall row :: row in rows && !HasDHash(row) ==> SiteTag(row.siteId, "DHASH", VHash(row, approvalHash), false) in r[|tags|..])
  {
    HashesExisting(tags, rows, approvalHash);
    HashesNew(tags, rows, approvalHash);
  }

  /** The tables the script touches; `mgrinfoCalls` logs the organisations passed to `update_mgrinfo`. */
  class HashUpgrade {
    var siteTags: seq<SiteTag>
    var mgrinfoCalls: seq<int>

    constructor (siteTags: seq<SiteTag>)
      ensures this.siteTags == siteTags && mgrinfoCalls == []
    {
      this.siteTags := siteTags;
      mgrinfoCalls := [];
    }

    /** "Add verification hashes": `added` inserts and `updated` updates, one of them per row. */
    method AddHashes(rows: seq<HashRow>, approvalHash: (int, Option<int>) -> string) returns (added: nat, updated: nat)
      requires RefsValid(siteTags, rows)
      modifies this
      ensures siteTags == Hashes(old(siteTags), rows, approvalHash)
      ensures added == CountIf(rows, (row: HashRow) => !HasDHash(row)) && added + updated == |rows|
      ensures mgrinfoCalls == old(mgrinfoCalls)
    {
      ghost var tags0 := siteTags;
      added, updated := 0, 0;
      var i := 0;
      while i < |rows|
        invariant 0 <= i <= |rows|
        invariant RefsValid(tags0, rows[..i])
        invariant siteTags == Hashes(tags0, rows[..i], approvalHash)
        invariant |siteTags| == |tags0| + added && added + updated == i
        invariant mgrinfoCalls == old(mgrinfoCalls)
      {
        assert rows[..i + 1][..i] == rows[..i];
        assert rows[i] in rows;
        var row := rows[i];
        var vhash := if row.status == Some("APPROVED") then Some(approvalHash(row.siteId, row.locationId)) else None;
        if row.dhashTag.Some? {
          siteTags := siteTags[row.dhashTag.value := siteTags[row.dhashTag.value].(value := vhash)];
          updated := updated + 1;
        } else {
          siteTags := siteTags + [SiteTag(row.siteId, "DHASH", vhash, false)];
          added := added + 1;
        }
        i := i + 1;
      }
      assert rows[..|rows|] == rows;
    }

    /**
     * "Update manager info status": one call per live organisation. The
     * query does not use the group join it builds, so every live
     * organisation is included, not only the test stations.
     */
    method UpdateManagerInfo(orgs: seq<Organisation>, deleted: int -> bool)
      modifies this
      ensures mgrinfoCalls == old(mgrinfoCalls) + Collect(orgs, (o: Organisation) => !deleted(o.id), (o: Organisation) => o.id)
      ensures siteTags == old(siteTags)
    {
      var i := 0;
      while i < |orgs|
        invariant 0 <= i <= |orgs|
        invariant mgrinfoCalls == old(mgrinfoCalls) + Collect(orgs[..i], (o: Organisation) => !deleted(o.id), (o: Organisation) => o.id)
        invariant siteTags == old(siteTags)
      {
        assert orgs[..i + 1] == orgs[..i] + [orgs[i]];
        CollectSnoc(orgs[..i], orgs[i], (o: Organisation) => !deleted(o.id), (o: Organisation) => o.id);
        if !deleted(orgs[i].id) {
          mgrinfoCalls := mgrinfoCalls + [orgs[i].id];
        }
        i := i + 1;
      }
      assert orgs[..|orgs|] == orgs;
    }

    /** The whole script; no step of it sets `failed`, so it always commits. */
    method Run(rows: seq<HashRow>, approvalHash: (int, Option<int>) -> string, orgs: seq<Organisation>, deleted: int -> bool)
      requires RefsValid(siteTags, rows)
      modifies this
      ensures siteTags == Hashes(old(siteTags), rows, approvalHash)
      ensures mgrinfoCalls == old(mgrinfoCalls) + Collect(orgs, (o: Organisation) => !deleted(o.id), (o: Organisation) => o.id)
    {
      var _, _ := AddHashes(rows, approvalHash);
      UpdateManagerInfo(orgs, deleted);
    }
  }

  /** Every live organisation is passed to `update_mgrinfo`, and only those. */
  lemma ManagerInfoCalls(orgs: seq<Organisation>, deleted: int -> bool)
    ensures var calls := Collect(orgs, (o: Organisation) => !deleted(o.id), (o: Organisation) => o.id);
            && |calls| == CountIf(orgs, (o: Organisation) => !deleted(o.id))
            && forall id :: id in calls <==> exists o :: o in orgs && o.id == id && !deleted(id)
  {
    CollectMembers(orgs, (o: Organisation) => !deleted(o.id), (o: Organisation) => o.id);
  }
}
