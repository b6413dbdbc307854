/**
 * RLPPTM upgrade 1.5.2 => 1.5.3: every organisation gets a REQUESTER tag
 * saying whether some user holds the SUPPLY_REQUESTER role for it; then
 * the roles are re-imported and the SUPPLY_REQUESTER role is dropped.
 */
module Upgrade152 {
  import opened Wrappers
  import opened Helpers
  import opened Migration

  /** A SUPPLY_REQUESTER membership joined with its user's person entity (`userPeId`, left join). */
  datatype MembershipRow = MembershipRow(peId: Option<int>, deleted: bool, userPeId: Option<int>)

  /** The membership query: live, with a NULL or non-zero `pe_id`. */
  predicate Counted(m: MembershipRow) {
    (m.peId.None? || m.peId.value != 0) && !m.deleted
  }

  /** The realms one row marks; `realmsOf` stands for `pr_realm`. */
  function MarkedBy(m: MembershipRow, realmsOf: int -> seq<int>): set<int> {
    if Truthy(m.peId) then {m.peId.value}
    else if Truthy(m.userPeId) then set x | x in realmsOf(m.userPeId.value)
    else {}
  }

  /** The keys of `has_requesters` after the loop over `rows`. */
  function Marked(rows: seq<MembershipRow>, realmsOf: int -> seq<int>): set<int> {
    if rows == [] then {} else Marked(rows[..|rows| - 1], realmsOf) + MarkedBy(rows[|rows| - 1], realmsOf)
  }

  /**
   * A realm is marked iff a selected membership names it, or a selected
   * membership without a realm belongs to a user whose own person entity
   * has it among its realms. Memberships with `pe_id == 0` mark nothing.
   */
  lemma {:induction false} MarkedIff(rows: seq<MembershipRow>, realmsOf: int -> seq<int>, x: int)
    ensures x in Marked(Filter(rows, Counted), realmsOf) <==>
            exists m :: m in rows && Counted(m) &&
              ((m.peId.Some? && m.peId.value == x) ||
               (m.peId.None? && Truthy(m.userPeId) && x in realmsOf(m.userPeId.value)))
  {
    MarkedMembers(Filter(rows, Counted), realmsOf, x);
    if x in Marked(Filter(rows, Counted), realmsOf) {
      var m :| m in Filter(rows, Counted) && x in MarkedBy(m, realmsOf);
      assert m in rows && Counted(m);
    } else {
      forall m | m in rows && Counted(m)
        ensures !((m.peId.Some? && m.peId.value == x) ||
                  (m.peId.None? && Truthy(m.userPeId) && x in realmsOf(m.userPeId.value)))
      {
        FilterComplete(rows, Counted, m);
      }
    }
  }

  lemma {:induction false} MarkedMembers(rows: seq<MembershipRow>, realmsOf: int -> seq<int>, x: int)
    ensures x in Marked(rows, realmsOf) <==> exists m :: m in rows && x in MarkedBy(m, realmsOf)
  {
    if rows != [] {
      var n := |rows| - 1;
      MarkedMembers(rows[..n], realmsOf, x);
      assert rows == rows[..n] + [rows[n]];
      if x in MarkedBy(rows[n], realmsOf) {
        assert rows[n] in rows;
      }
      forall m | m in rows && x in MarkedBy(m, realmsOf)
        ensures x in Marked(rows, realmsOf)
      {
        if m != rows[n] {
          assert m in rows[..n];
        }
      }
    }
  }

  /** The organisations the tag query selects: live ones without a live REQUESTER tag. */
  function NeedsRequester(orgs: seq<Org>, tags: seq<OrgTag>): seq<Org> {
    Filter(orgs, (o: Org) => !o.deleted && !HasOrgTag(tags, o.id, "REQUESTER"))
  }

  /** The REQUESTER tag of `org`: "Y" iff its person entity is a marked realm. */
  function RequesterTag(org: Org, marked: set<int>): OrgTag {
    OrgTag(org.id, "REQUESTER", Some(if org.peId.Some? && org.peId.value in marked then "Y" else "N"), false)
  }

  function RequesterTags(rows: seq<Org>, marked: set<int>): (r: seq<OrgTag>)
    ensures |r| == |rows|
  {
    seq(|rows|, i requires 0 <= i < |rows| => RequesterTag(rows[i], marked))
  }

  /**
   * After the back-fill every live organisation has a REQUESTER tag; each
   * selected organisation got exactly one new tag, in order, whose value
   * is "Y" iff its `pe_id` is marked; and a second run selects nothing.
   */
  lemma RequesterBackfill(orgs: seq<Org>, tags: seq<OrgTag>, marked: set<int>)
    ensures var rows := NeedsRequester(orgs, tags);
            var added := RequesterTags(rows, marked);
            && (forall i :: 0 <= i < |rows| ==>
                  && added[i].organisationId == rows[i].id && added[i].tag == "REQUESTER" && !added[i].deleted
                  && (added[i].value == Some("Y") <==> rows[i].peId.Some? && rows[i].peId.value in marked)
                  && (added[i].value == Some("Y") || added[i].value == Some("N")))
            && (forall o :: o in orgs && !o.deleted ==> HasOrgTag(tags + added, o.id, "REQUESTER"))
            && NeedsRequester(orgs, tags + added) == []
  {
    var rows := NeedsRequester(orgs, tags);
    var added := RequesterTags(rows, marked);
    var tags' := tags + added;
    forall o | o in orgs && !o.deleted
      ensures HasOrgTag(tags', o.id, "REQUESTER")
    {
      if HasOrgTag(tags, o.id, "REQUESTER") {
        HasOrgTagAppend(tags, added, o.id, "REQUESTER");
      } else {
        FilterComplete(orgs, (o: Org) => !o.deleted && !HasOrgTag(tags, o.id, "REQUESTER"), o);
        var i :| 0 <= i < |rows| && rows[i] == o;
        assert tags'[|tags| + i] == added[i];
      }
    }
    FilterNone(orgs, (o: Org) => !o.deleted && !HasOrgTag(tags', o.id, "REQUESTER"));
  }

  /** The tables the script touches; `roles` are the uuids of the auth groups. */
  class RequesterUpgrade {
    var organisations: seq<Org>
    var orgTags: seq<OrgTag>
    var roles: set<string>

    constructor (organisations: seq<Org>, orgTags: seq<OrgTag>, roles: set<string>)
      ensures this.organisations == organisations && this.orgTags == orgTags && this.roles == roles
    {
      this.organisations := organisations;
      this.orgTags := orgTags;
      this.roles := roles;
    }

    /** The `has_requesters` loop over the membership rows. */
    static method FindRequesters(rows: seq<MembershipRow>, realmsOf: int -> seq<int>) returns (marked: set<int>)
      ensures marked == Marked(Filter(rows, Counted), realmsOf)
    {
      var selected := Filter(rows, Counted);
      marked := {};
      var i := 0;
      while i < |selected|
        invariant 0 <= i <= |selected|
        invariant marked == Marked(selected[..i], realmsOf)
      {
        assert selected[..i + 1][..i] == selected[..i];
        var row := selected[i];
        if Truthy(row.peId) {
          marked := marked + {row.peId.value};
        } else if Truthy(row.userPeId) {
          var realms := realmsOf(row.userPeId.value);
          ghost var before := marked;
          var k := 0;
          while k < |realms|
            invariant 0 <= k <= |realms|
            invariant marked == before + set x | x in realms[..k]
          {
            assert realms[..k + 1] == realms[..k] + [realms[k]];
            marked := marked + {realms[k]};
            k := k + 1;
          }
          assert realms[..|realms|] == realms;
        }
        i := i + 1;
      }
      assert selected[..|selected|] == selected;
    }

    /** "Install Requester-Tags": a tag for every selected organisation. */
    method InstallRequesterTags(marked: set<int>) returns (added: nat)
      modifies this
      ensures orgTags == old(orgTags) + RequesterTags(NeedsRequester(old(organisations), old(orgTags)), marked)
      ensures added == |NeedsRequester(old(organisations), old(orgTags))|
      ensures organisations == old(organisations) && roles == old(roles)
    {
      var rows := NeedsRequester(organisations, orgTags);
      ghost var tags0 := orgTags;
      added := 0;
      var i := 0;
      while i < |rows|
        invariant 0 <= i <= |rows|
        invariant orgTags == tags0 + RequesterTags(rows[..i], marked)
        invariant added == i
        invariant organisations == old(organisations) && roles == old(roles)
      {
        assert RequesterTags(rows[..i + 1], marked) == RequesterTags(rows[..i], marked) + [RequesterTag(rows[i], marked)];
        orgTags := orgTags + [RequesterTag(rows[i], marked)];
        added := added + 1;
        i := i + 1;
      }
      assert rows[..|rows|] == rows;
    }

    /**
     * The whole script; `rolesOk` is the outcome of the role import. The
     * SUPPLY_REQUESTER role is dropped only when nothing failed, and a
     * failure rolls the tags back.
     */
    method Run(memberships: seq<MembershipRow>, realmsOf: int -> seq<int>, rolesOk: bool) returns (failed: bool)
      modifies this
      ensures failed <==> !rolesOk
      ensures failed ==> orgTags == old(orgTags) && roles == old(roles)
      ensures !failed ==> && orgTags == old(orgTags) + RequesterTags(NeedsRequester(old(organisations), old(orgTags)),
                                                                     Marked(Filter(memberships, Counted), realmsOf))
                          && roles == old(roles) - {"SUPPLY_REQUESTER"}
      ensures organisations == old(organisations)
    {
      var orgTags0 := orgTags;
      var marked := FindRequesters(memberships, realmsOf);
      var _ := InstallRequesterTags(marked);
      failed := !rolesOk;
      if !failed {
        roles := roles - {"SUPPLY_REQUESTER"};
      }
      if failed {
        orgTags := orgTags0;
      }
    }
  }
}
