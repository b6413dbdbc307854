/**
 * RLPPTM fix-up for 1.12.6: staff of test station organisations that have
 * no site are assigned to the oldest facility of their organisation.
 */
module Fixup1126 {
  import opened Wrappers

  /** An hrm_human_resource row; `modifiedBy`/`modifiedOn` are its meta fields. */
  datatype HumanResource = HumanResource(id: int, personId: int, organisationId: Option<int>, siteId: Option<int>,
                                         deleted: bool, modifiedBy: Option<int>, modifiedOn: int)

  /** An org_facility row; the table is read in `createdOn` order. */
  datatype Facility = Facility(organisationId: Option<int>, siteId: Option<int>, createdOn: int, deleted: bool)

  /** The staff query: live, without a site, of an organisation in the test stations group. */
  predicate Candidate(h: HumanResource, isTestStation: int -> bool) {
    h.siteId.None? && !h.deleted && h.organisationId.Some? && isTestStation(h.organisationId.value)
  }

  /** `org_ids`: the organisations of the candidates. */
  function OrgIds(hrs: seq<HumanResource>, isTestStation: int -> bool): set<int> {
    set h | h in hrs && Candidate(h, isTestStation) :: h.organisationId.value
  }

  /** The facility query: live facilities of those organisations, in table (creation) order. */
  function FacilityRows(facilities: seq<Facility>, orgIds: set<int>): seq<Facility> {
    Filter(facilities, (f: Facility) => !f.deleted && f.organisationId.Some? && f.organisationId.value in orgIds)
  }

  /** `site_ids` after the loop over `rows`: the first row of each organisation wins. */
  function SiteMap(rows: seq<Facility>): map<int, Option<int>> {
    if rows == [] then map[]
    else
      var m := SiteMap(rows[..|rows| - 1]);
      var f := rows[|rows| - 1];
      if f.organisationId.None? || f.organisationId.value in m then m else m[f.organisationId.value := f.siteId]
  }

  /**
   * An organisation is a key of `site_ids` iff one of the rows belongs to
   * it, and its value is the site of the first such row.
   */
  lemma {:induction false} SiteMapFirst(rows: seq<Facility>, o: int)
    ensures var k := FirstIndex(rows, (f: Facility) => f.organisationId == Some(o));
            && (o in SiteMap(rows) <==> k.Some?)
            && (k.Some? ==> SiteMap(rows)[o] == rows[k.value].siteId)
  {
    if rows != [] {
      var n := |rows| - 1;
      SiteMapFirst(rows[..n], o);
      var p := (f: Facility) => f.organisationId == Some(o);
      var k0 := FirstIndex(rows[..n], p);
      var k := FirstIndex(rows, p);
      if k0.Some? {
        assert rows[k0.value] == rows[..n][k0.value];
        assert k == k0;
      } else if p(rows[n]) {
        assert k == Some(n);
      } else {
        assert k.None?;
      }
    }
  }

  /** When the rows are in creation order, the site chosen for an organisation is that of its oldest facility. */
  lemma SiteMapEarliest(rows: seq<Facility>, o: int)
    requires forall i, j :: 0 <= i < j < |rows| ==> rows[i].createdOn <= rows[j].createdOn
    requires o in SiteMap(rows)
    ensures exists k :: 0 <= k < |rows| && rows[k].organisationId == Some(o) && rows[k].siteId == SiteMap(rows)[o]
                        && forall j :: 0 <= j < |rows| && rows[j].organisationId == Some(o) ==> rows[k].createdOn <= rows[j].createdOn
  {
    SiteMapFirst(rows, o);
    var k := FirstIndex(rows, (f: Facility) => f.organisationId == Some(o)).value;
    assert rows[k].organisationId == Some(o);
  }

  /** The candidate gets a site iff its organisation's entry in `site_ids` is a truthy site id. */
  predicate GetsSite(h: HumanResource, isTestStation: int -> bool, siteIds: map<int, Option<int>>) {
    Candidate(h, isTestStation) && h.organisationId.value in siteIds && Truthy(siteIds[h.organisationId.value])
  }

  /** The staff table after the update loop. */
  function Assigned(hrs: seq<HumanResource>, isTestStation: int -> bool, siteIds: map<int, Option<int>>): (r: seq<HumanResource>)
    ensures |r| == |hrs|
  {
    seq(|hrs|, j requires 0 <= j < |hrs| =>
      if GetsSite(hrs[j], isTestStation, siteIds) then hrs[j].(siteId := siteIds[hrs[j].organisationId.value]) else hrs[j])
  }

  /** One pass of the update loop: the row gets its site when it qualifies, and stays as it is otherwise. */
  lemma AssignedStep(hrs: seq<HumanResource>, j: nat, isTestStation: int -> bool, siteIds: map<int, Option<int>>)
    requires j < |hrs|
    ensures var r := Assigned(hrs, isTestStation, siteIds);
            var h := hrs[j];
            && hrs[j..][0] == h
            && (GetsSite(h, isTestStation, siteIds) ==>
                  r[..j + 1] + hrs[j + 1..] == (r[..j] + hrs[j..])[j := h.(siteId := siteIds[h.organisationId.value])])
            && (!GetsSite(h, isTestStation, siteIds) ==> r[..j + 1] + hrs[j + 1..] == r[..j] + hrs[j..])
  {
    var r := Assigned(hrs, isTestStation, siteIds);
    var h := hrs[j];
    if GetsSite(h, isTestStation, siteIds) {
      assert r[..j + 1] + hrs[j + 1..] == (r[..j] + hrs[j..])[j := h.(siteId := siteIds[h.organisationId.value])];
    } else {
      assert r[j] == h;
      assert r[..j + 1] + hrs[j + 1..] == r[..j] + hrs[j..];
    }
  }

  /**
   * A candidate whose organisation has a facility with a site is moved to
   * the site of the first such row; every other row, and every other field
   * (the meta fields included), stays as it was.
   */
  lemma AssignedEffect(hrs: seq<HumanResource>, facilities: seq<Facility>, isTestStation: int -> bool)
    ensures var rows := FacilityRows(facilities, OrgIds(hrs, isTestStation));
            var r := Assigned(hrs, isTestStation, SiteMap(rows));
            forall j :: 0 <= j < |hrs| ==>
              && r[j] == hrs[j].(siteId := r[j].siteId)
              && (r[j] != hrs[j] <==> GetsSite(hrs[j], isTestStation, SiteMap(rows)))
              && (GetsSite(hrs[j], isTestStation, SiteMap(rows)) ==>
                    var k := FirstIndex(rows, (f: Facility) => f.organisationId == hrs[j].organisationId);
                    k.Some? && r[j].siteId == rows[k.value].siteId)
  {
    var rows := FacilityRows(facilities, OrgIds(hrs, isTestStation));
    forall j | 0 <= j < |hrs| && GetsSite(hrs[j], isTestStation, SiteMap(rows))
      ensures var k := FirstIndex(rows, (f: Facility) => f.organisationId == hrs[j].organisationId);
              k.Some? && SiteMap(rows)[hrs[j].organisationId.value] == rows[k.value].siteId
    {
      SiteMapFirst(rows, hrs[j].organisationId.value);
    }
  }

  /** The staff table. */
  class StaffFixup {
    var humanResources: seq<HumanResource>

    constructor (humanResources: seq<HumanResource>)
      ensures this.humanResources == humanResources
    {
      this.humanResources := humanResources;
    }

    /** The `site_ids` loop over the facility rows. */
    static method BuildSiteMap(rows: seq<Facility>) returns (siteIds: map<int, Option<int>>)
      ensures siteIds == SiteMap(rows)
    {
      siteIds := map[];
      var i := 0;
      while i < |rows|
        invariant 0 <= i <= |rows|
        invariant siteIds == SiteMap(rows[..i])
      {
        assert rows[..i + 1][..i] == rows[..i];
        var row := rows[i];
        if row.organisationId.Some? && row.organisationId.value !in siteIds {
          siteIds := siteIds[row.organisationId.value := row.siteId];
        }
        i := i + 1;
      }
      assert rows[..|rows|] == rows;
    }

    /** The update loop over the candidates; `updated` counts the rows that got a site. */
    method AssignSites(isTestStation: int -> bool, siteIds: map<int, Option<int>>) returns (updated: nat)
      modifies this
      ensures humanResources == Assigned(old(humanResources), isTestStation, siteIds)
      ensures updated == CountIf(old(humanResources), (h: HumanResource) => GetsSite(h, isTestStation, siteIds))
    {
      ghost var hrs0 := humanResources;
      ghost var p := (h: HumanResource) => GetsSite(h, isTestStation, siteIds);
      updated := 0;
      var j := 0;
      while j < |humanResources|
        invariant 0 <= j <= |humanResources| == |hrs0|
        invariant humanResources == Assigned(hrs0, isTestStation, siteIds)[..j] + hrs0[j..]
        invariant updated == CountIf(hrs0[..j], p)
      {
        CountIfPrefixStep(hrs0, j, p);
        AssignedStep(hrs0, j, isTestStation, siteIds);
        var h := humanResources[j];
        if Candidate(h, isTestStation) {
          var org := h.organisationId.value;
          if org in siteIds && Truthy(siteIds[org]) {
            humanResources := humanResources[j := h.(siteId := siteIds[org])];
            updated := updated + 1;
          }
        }
        j := j + 1;
      }
      assert hrs0[..|hrs0|] == hrs0;
      assert Assigned(hrs0, isTestStation, siteIds)[..|hrs0|] == Assigned(hrs0, isTestStation, siteIds);
    }

    /** The whole script; `facilities` is the facility table in creation order. */
    method Run(facilities: seq<Facility>, isTestStation: int -> bool) returns (updated: nat)
      modifies this
      ensures var rows := FacilityRows(facilities, OrgIds(old(humanResources), isTestStation));
              humanResources == Assigned(old(humanResources), isTestStation, SiteMap(rows))
    {
      var orgIds := OrgIds(humanResources, isTestStation);
      var siteIds := BuildSiteMap(FacilityRows(facilities, orgIds));
      updated := AssignSites(isTestStation, siteIds);
    }
  }
}
