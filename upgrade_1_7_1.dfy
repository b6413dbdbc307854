/**
 * RLPPTM upgrade 1.7.1 => 1.7.2: the service-site links are restored from
 * the backup table that the preparation script saved, keeping each
 * (service, site) pair once; then new CMS items are imported.
 */
module Upgrade171 {
  import opened Wrappers

  /** An org_service_site row (both references are nullable columns). */
  datatype Link = Link(serviceId: Option<int>, siteId: Option<int>)

  /** A sequence without repeats has as many elements as its set. */
  lemma {:induction false} NoRepeatsCard(s: seq<Link>)
    requires forall i, j :: 0 <= i < j < |s| ==> s[i] != s[j]
    ensures |set x | x in s| == |s|
  {
    if s != [] {
      var n := |s| - 1;
      NoRepeatsCard(s[..n]);
      assert (set x | x in s) == (set x | x in s[..n]) + {s[n]};
      assert s[n] !in s[..n];
    }
  }

  /** `restored` is the number of distinct pairs in the backup. */
  lemma DistinctCount(pairs: seq<Link>)
    ensures |Distinct(pairs)| == |set x | x in pairs|
  {
    var r := Distinct(pairs);
    NoRepeatsCard(r);
    assert (set x | x in r) == (set x | x in pairs);
  }

  /**
   * The link table and the backup table (`None` once dropped, or when it
   * was never made), with the state of both as of the last commit.
   */
  class ServiceSiteUpgrade {
    var links: seq<Link>
    var backup: Option<seq<Link>>
    var committed: (seq<Link>, Option<seq<Link>>)

    constructor (links: seq<Link>, backup: Option<seq<Link>>)
      ensures this.links == links && this.backup == backup
      ensures committed == (links, backup)
    {
      this.links := links;
      this.backup := backup;
      committed := (links, backup);
    }

    /** `db.commit()`: the current tables become the committed state. */
    method Commit()
      modifies this
      ensures links == old(links) && backup == old(backup)
      ensures committed == (links, backup)
    {
      committed := (links, backup);
    }

    /** `db.rollback()`: the tables return to the committed state. */
    method Rollback()
      modifies this
      ensures (links, backup) == old(committed) && committed == old(committed)
    {
      links, backup := committed.0, committed.1;
    }

    /**
     * "Restore site service links": without a backup table the failed
     * select is rolled back; otherwise the link table is truncated,
     * refilled with each backed-up pair once, and the backup table is
     * dropped, which commits (pydal's `Table.drop`).
     */
    method RestoreLinks() returns (restored: nat)
      modifies this
      ensures old(backup).None? ==> (links, backup) == old(committed) && committed == old(committed) && restored == 0
      ensures old(backup).Some? ==> && links == Distinct(old(backup).value) && backup.None?
                                    && restored == |Distinct(old(backup).value)|
                                    && committed == (links, backup)
    {
      if backup.None? {
        Rollback();
        return 0;
      }
      var rows := backup.value;
      links := [];
      restored := 0;
      var seen: set<Link> := {};
      var i := 0;
      while i < |rows|
        invariant 0 <= i <= |rows|
        invariant links == Distinct(rows[..i])
        invariant seen == set x | x in rows[..i]
        invariant restored == |links|
      {
        assert rows[..i + 1] == rows[..i] + [rows[i]];
        var pair := rows[i];
        if pair !in seen {
          restored := restored + 1;
          seen := seen + {pair};
          links := links + [pair];
        }
        i := i + 1;
      }
      assert rows[..|rows|] == rows;
      backup := None;
      Commit();
    }

    /**
     * The whole script; `cmsOk` is the outcome of the CMS import. A failed
     * import rolls back to the last commit, which the drop of the backup
     * table has already moved past the restore: the restore persists
     * either way, and the script's outcome ends up committed.
     */
    method Run(cmsOk: bool) returns (failed: bool)
      modifies this
      ensures failed <==> !cmsOk
      ensures old(backup).None? ==> (links, backup) == old(committed) && committed == old(committed)
      ensures old(backup).Some? ==> links == Distinct(old(backup).value) && backup.None?
      ensures committed == (links, backup)
    {
      var _ := RestoreLinks();
      failed := !cmsOk;
      if failed {
        Rollback();
      } else {
        Commit();
      }
    }
  }
}
