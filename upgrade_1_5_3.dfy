/**
 * RLPPTM upgrade 1.5.3 => 1.5.4: every organisation without an OrgID tag
 * gets one. The script has no step that can fail, so it always commits.
 */
module Upgrade153 {
  import opened Wrappers
  import opened Helpers
  import opened Migration

  /** The organisation and organisation tag tables the script touches. */
  class OrgIdUpgrade {
    var organisations: seq<Org>
    var orgTags: seq<OrgTag>

    constructor (organisations: seq<Org>, orgTags: seq<OrgTag>)
      ensures this.organisations == organisations && this.orgTags == orgTags
    {
      this.organisations := organisations;
      this.orgTags := orgTags;
    }

    /**
     * "Install OrgID-Tags": one tag per selected organisation, in selection
     * order; `random(i)` stands for the uid digits of the uuid4 drawn when
     * the i-th organisation's own uuid does not parse.
     */
    method InstallOrgIds(random: nat -> nat) returns (added: nat)
      modifies this
      ensures organisations == old(organisations)
      ensures orgTags == old(orgTags) + OrgIdTags(NeedsOrgId(old(organisations), old(orgTags)), random)
      ensures added == |NeedsOrgId(old(organisations), old(orgTags))|
    {
      var rows := NeedsOrgId(organisations, orgTags);
      ghost var tags0 := orgTags;
      added := 0;
      var i := 0;
      while i < |rows|
        invariant 0 <= i <= |rows|
        invariant orgTags == tags0 + OrgIdTags(rows[..i], random)
        invariant added == i
        invariant organisations == old(organisations)
      {
        OrgIdTagsSnoc(rows, random, i);
        orgTags := orgTags + [OrgIdTag(rows[i], random(i))];
        added := added + 1;
        i := i + 1;
      }
      assert rows[..|rows|] == rows;
    }
  }
}
