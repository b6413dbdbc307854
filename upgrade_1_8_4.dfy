/**
 * RLPPTM upgrade 1.8.4 => 1.8.5: every facility gets a PUBLIC tag and the
 * four workflow tags STATUS, MPAV, HYGIENE and LAYOUT, approved when the
 * facility is public and under review otherwise; then new CMS items are
 * imported.
 */
module Upgrade184 {
  import opened Wrappers
  import opened Helpers
  import opened Migration

  /** The workflow tag names, in the order the script visits them. */
  const Workflow: seq<string> := ["STATUS", "MPAV", "HYGIENE", "LAYOUT"]

  /** A row of the facility query: a live facility with the id and value of its PUBLIC tag (left join). */
  datatype FacilityRow = FacilityRow(siteId: int, publicTagId: Option<int>, publicValue: Option<string>)

  /** A facility is public iff it had a PUBLIC tag with value "Y"; a new tag is "N". */
  predicate IsPublic(row: FacilityRow) {
    row.publicTagId.Some? && row.publicValue == Some("Y")
  }

  /** The tags after the inner loop: each name the site lacks is added with `value`, in order. */
  function AddMissing(tags: seq<SiteTag>, siteId: int, names: seq<string>, value: string): seq<SiteTag> {
    if names == [] then tags
    else
      var t := AddMissing(tags, siteId, names[..|names| - 1], value);
      var name := names[|names| - 1];
      if HasSiteTag(t, siteId, name) then t else t + [SiteTag(siteId, name, Some(value), false)]
  }

  /** The tags after the loop body for one facility row. */
  function RowStep(tags: seq<SiteTag>, row: FacilityRow): seq<SiteTag> {
    var withPublic := if row.publicTagId.None? then tags + [SiteTag(row.siteId, "PUBLIC", Some("N"), false)] else tags;
    AddMissing(withPublic, row.siteId, Workflow, if IsPublic(row) then "APPROVED" else "REVIEW")
  }

  /** The tags after the loop over `rows`. */
  function Backfill(tags: seq<SiteTag>, rows: seq<FacilityRow>): seq<SiteTag> {
    if rows == [] then tags else RowStep(Backfill(tags, rows[..|rows| - 1]), rows[|rows| - 1])
  }

  /**
   * The inner loop keeps every existing tag, leaves the site with a live
   * tag of each name, and inserts only tags of the site with the given
   * value whose name the site lacked.
   */
  lemma {:induction false} AddMissingEffect(tags: seq<SiteTag>, siteId: int, names: seq<string>, value: string)
    ensures var r := AddMissing(tags, siteId, names, value);
            && |tags| <= |r| && r[..|tags|] == tags
            && (forall name :: name in names ==> HasSiteTag(r, siteId, name))
            && (forall k :: |tags| <= k < |r| ==>
                  && r[k].siteId == siteId && r[k].value == Some(value) && !r[k].deleted
                  && r[k].tag in names && !HasSiteTag(tags, siteId, r[k].tag))
  {
    if names != [] {
      var n := |names| - 1;
      var name := names[n];
      var t := AddMissing(tags, siteId, names[..n], value);
      AddMissingEffect(tags, siteId, names[..n], value);
      var r := AddMissing(tags, siteId, names, value);
      forall nm | nm in names
        ensures HasSiteTag(r, siteId, nm)
      {
        if nm in names[..n] {
          if r != t {
            HasSiteTagAppend(t, [SiteTag(siteId, name, Some(value), false)], siteId, nm);
          }
        } else {
          assert nm == name;
          if r != t {
            assert r[|t|].tag == name;
          }
        }
      }
    }
  }

  /**
   * After one row the table starts with the old tags; the site has a
   * PUBLIC tag and all four workflow tags; a new PUBLIC tag is "N"; and
   * every new workflow tag is APPROVED if the facility is public and
   * REVIEW otherwise.
   */
  lemma RowStepEffect(tags: seq<SiteTag>, row: FacilityRow)
    ensures var r := RowStep(tags, row);
            && |tags| <= |r| && r[..|tags|] == tags
            && (row.publicTagId.None? ==> |tags| < |r| && r[|tags|] == SiteTag(row.siteId, "PUBLIC", Some("N"), false))
            && (forall name :: name in Workflow ==> HasSiteTag(r, row.siteId, name))
            && (forall k :: |tags| <= k < |r| && r[k].tag != "PUBLIC" ==>
                  && r[k].siteId == row.siteId && r[k].tag in Workflow
                  && r[k].value == Some(if IsPublic(row) then "APPROVED" else "REVIEW"))
  {
    var withPublic := if row.publicTagId.None? then tags + [SiteTag(row.siteId, "PUBLIC", Some("N"), false)] else tags;
    AddMissingEffect(withPublic, row.siteId, Workflow, if IsPublic(row) then "APPROVED" else "REVIEW");
    var r := RowStep(tags, row);
    assert r[..|withPublic|] == withPublic;
    assert r[..|tags|] == withPublic[..|tags|];
  }

  /**
   * After the whole loop the old tags are kept as they were, and every
   * facility of the selection has a PUBLIC tag (new or old) and the four
   * workflow tags.
   */
  lemma BackfillEffect(tags: seq<SiteTag>, rows: seq<FacilityRow>)
    ensures var r := Backfill(tags, rows);
            && |tags| <= |r| && r[..|tags|] == tags
            && (forall row, name :: row in rows && name in Workflow ==> HasSiteTag(r, row.siteId, name))
            && (forall row :: row in rows && row.publicTagId.None? ==> HasSiteTag(r, row.siteId, "PUBLIC"))
  {
    BackfillKeeps(tags, rows);
    BackfillWorkflow(tags, rows);
    BackfillPublic(tags, rows);
  }

  lemma {:induction false} BackfillKeeps(tags: seq<SiteTag>, rows: seq<FacilityRow>)
    ensures var r := Backfill(tags, rows);
            |tags| <= |r| && r[..|tags|] == tags
  {
    if rows != [] {
      var n := |rows| - 1;
      var t := Backfill(tags, rows[..n]);
      BackfillKeeps(tags, rows[..n]);
      RowStepEffect(t, rows[n]);
      var r := Backfill(tags, rows);
      assert r[..|tags|] == t[..|tags|];
    }
  }

  lemma {:induction false} BackfillWorkflow(tags: seq<SiteTag>, rows: seq<FacilityRow>)
    ensures var r := Backfill(tags, rows);
            forall row, name :: row in rows && name in Workflow ==> HasSiteTag(r, row.siteId, name)
  {
    if rows != [] {
      var n := |rows| - 1;
      var t := Backfill(tags, rows[..n]);
      var r := Backfill(tags, rows);
      BackfillWorkflow(tags, rows[..n]);
      RowStepEffect(t, rows[n]);
      assert r == t + r[|t|..];
      forall row, name | row in rows && name in Workflow
        ensures HasSiteTag(r, row.siteId, name)
      {
        if row != rows[n] {
          assert row in rows[..n];
          HasSiteTagAppend(t, r[|t|..], row.siteId, name);
        }
      }
    }
  }

  lemma {:induction false} BackfillPublic(tags: seq<SiteTag>, rows: seq<FacilityRow>)
    ensures var r := Backfill(tags, rows);
            forall row :: row in rows && row.publicTagId.None? ==> HasSiteTag(r, row.siteId, "PUBLIC")
  {
    if rows != [] {
      var n := |rows| - 1;
      var t := Backfill(tags, rows[..n]);
      var r := Backfill(tags, rows);
      BackfillPublic(tags, rows[..n]);
      RowStepEffect(t, rows[n]);
      assert r == t + r[|t|..];
      forall row | row in rows && row.publicTagId.None?
        ensures HasSiteTag(r, row.siteId, "PUBLIC")
      {
        if row != rows[n] {
          assert row in rows[..n];
          HasSiteTagAppend(t, r[|t|..], row.siteId, "PUBLIC");
        } else {
          assert r[|t|].tag == "PUBLIC";
        }
      }
    }
  }

  /** The site tag table. */
  class WorkflowUpgrade {
    var siteTags: seq<SiteTag>

    constructor (siteTags: seq<SiteTag>)
      ensures this.siteTags == siteTags
    {
      this.siteTags := siteTags;
    }

    /** The inner loop over the workflow tag names for one site. */
    method AddMissingTags(siteId: int, value: string) returns (added: nat)
      modifies this
      ensures siteTags == AddMissing(old(siteTags), siteId, Workflow, value)
      ensures added == |siteTags| - |old(siteTags)|
    {
      ghost var tags0 := siteTags;
      added := 0;
      var i := 0;
      while i < |Workflow|
        invariant 0 <= i <= |Workflow|
        invariant siteTags == AddMissing(tags0, siteId, Workflow[..i], value)
        invariant added + |tags0| == |siteTags|
      {
        assert Workflow[..i + 1][..i] == Workflow[..i];
        var name := Workflow[i];
        if !HasSiteTag(siteTags, siteId, name) {
          siteTags := siteTags + [SiteTag(siteId, name, Some(value), false)];
          added := added + 1;
        }
        i := i + 1;
      }
      assert Workflow[..|Workflow|] == Workflow;
    }

    /** "Add new workflow tags": `added` counts every inserted tag. */
    method AddWorkflowTags(rows: seq<FacilityRow>) returns (added: nat)
      modifies this
      ensures siteTags == Backfill(old(siteTags), rows)
      ensures added == |siteTags| - |old(siteTags)|
    {
      ghost var tags0 := siteTags;
      added := 0;
      var i := 0;
      while i < |rows|
        invariant 0 <= i <= |rows|
        invariant siteTags == Backfill(tags0, rows[..i])
        invariant added + |tags0| == |siteTags|
      {
        assert rows[..i + 1][..i] == rows[..i];
        var row := rows[i];
        var isPublic := false;
        if row.publicTagId.None? {
          siteTags := siteTags + [SiteTag(row.siteId, "PUBLIC", Some("N"), false)];
          added := added + 1;
        } else {
          isPublic := row.publicValue == Some("Y");
        }
        var n := AddMissingTags(row.siteId, if isPublic then "APPROVED" else "REVIEW");
        added := added + n;
        i := i + 1;
      }
      assert rows[..|rows|] == rows;
    }

    /** The whole script; `cmsOk` is the outcome of the CMS import, whose failure rolls back the tags. */
    method Run(rows: seq<FacilityRow>, cmsOk: bool) returns (failed: bool)
      modifies this
      ensures failed <==> !cmsOk
      ensures failed ==> siteTags == old(siteTags)
      ensures !failed ==> siteTags == Backfill(old(siteTags), rows)
    {
      var siteTags0 := siteTags;
      var _ := AddWorkflowTags(rows);
      failed := !cmsOk;
      if failed {
        siteTags := siteTags0;
      }
    }
  }
}
