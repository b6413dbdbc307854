/**
 * RLPPTM upgrade 1.10.1 => 1.11.0: supply item categories are imported,
 * test station organisations get a DELIVERY tag (via distribution centre
 * when they are requesters, direct otherwise), and warehouses get a
 * CENTRAL tag.
 */
module Upgrade1101 {
  import opened Wrappers
  import opened Helpers

  /** An organisation with its REQUESTER and DELIVERY tags (two left joins: id and value of each). */
  datatype DeliveryRow = DeliveryRow(organisationId: int, deleted: bool,
                                     requesterId: Option<int>, requesterValue: Option<string>,
                                     deliveryId: Option<int>)

  /** A warehouse with the id of its CENTRAL tag (left join). */
  datatype WarehouseRow = WarehouseRow(siteId: int, deleted: bool, centralId: Option<int>)

  /** The DELIVERY query: live organisations that are members of the test stations group. */
  function DeliverySelection(rows: seq<DeliveryRow>, isTestStation: int -> bool): seq<DeliveryRow> {
    Filter(rows, (r: DeliveryRow) => !r.deleted && isTestStation(r.organisationId))
  }

  predicate LacksDelivery(r: DeliveryRow) {
    !Truthy(r.deliveryId)
  }

  /** The DELIVERY tag of a row: VIA_DC iff it has a REQUESTER tag with value "Y", DIRECT otherwise. */
  function DeliveryTag(r: DeliveryRow): (t: OrgTag)
    ensures t.organisationId == r.organisationId && t.tag == "DELIVERY" && !t.deleted
    ensures t.value == Some("VIA_DC") <==> Truthy(r.requesterId) && r.requesterValue == Some("Y")
    ensures t.value == Some("VIA_DC") || t.value == Some("DIRECT")
  {
    OrgTag(r.organisationId, "DELIVERY",
           Some(if Truthy(r.requesterId) && r.requesterValue == Some("Y") then "VIA_DC" else "DIRECT"), false)
  }

  predicate LacksCentral(r: WarehouseRow) {
    !Truthy(r.centralId)
  }

  function CentralTag(r: WarehouseRow): SiteTag {
    SiteTag(r.siteId, "CENTRAL", Some("N"), false)
  }

  /**
   * The DELIVERY tags inserted are exactly those of the selected test
   * stations that had none, one per such row, so `added` is their number.
   */
  lemma DeliveryTagsEffect(rows: seq<DeliveryRow>, isTestStation: int -> bool)
    ensures var sel := DeliverySelection(rows, isTestStation);
            var added := Collect(sel, LacksDelivery, DeliveryTag);
            && |added| == CountIf(sel, LacksDelivery)
            && (forall r :: r in rows && !r.deleted && isTestStation(r.organisationId) && LacksDelivery(r) ==>
                  DeliveryTag(r) in added)
            && (forall t :: t in added ==>
                  exists r :: r in rows && !r.deleted && isTestStation(r.organisationId) && LacksDelivery(r) && t == DeliveryTag(r))
  {
    var sel := DeliverySelection(rows, isTestStation);
    CollectMembers(sel, LacksDelivery, DeliveryTag);
    forall r | r in rows && !r.deleted && isTestStation(r.organisationId) && LacksDelivery(r)
      ensures r in sel
    {
      FilterComplete(rows, (r: DeliveryRow) => !r.deleted && isTestStation(r.organisationId), r);
    }
  }

  /** The CENTRAL tags inserted are "N" tags, exactly one for each live warehouse that had none. */
  lemma CentralTagsEffect(rows: seq<WarehouseRow>)
    ensures var sel := Filter(rows, (r: WarehouseRow) => !r.deleted);
            var added := Collect(sel, LacksCentral, CentralTag);
            && |added| == CountIf(sel, LacksCentral)
            && (forall r :: r in rows && !r.deleted && LacksCentral(r) ==> SiteTag(r.siteId, "CENTRAL", Some("N"), false) in added)
            && (forall t :: t in added ==>
                  && t.tag == "CENTRAL" && t.value == Some("N")
                  && exists r :: r in rows && !r.deleted && LacksCentral(r) && t.siteId == r.siteId)
  {
    var sel := Filter(rows, (r: WarehouseRow) => !r.deleted);
    CollectMembers(sel, LacksCentral, CentralTag);
    forall r | r in rows && !r.deleted && LacksCentral(r)
      ensures r in sel
    {
      FilterComplete(rows, (r: WarehouseRow) => !r.deleted, r);
    }
  }

  /** The organisation and site tag tables. */
  class DeliveryUpgrade {
    var orgTags: seq<OrgTag>
    var siteTags: seq<SiteTag>

    constructor (orgTags: seq<OrgTag>, siteTags: seq<SiteTag>)
      ensures this.orgTags == orgTags && this.siteTags == siteTags
    {
      this.orgTags := orgTags;
      this.siteTags := siteTags;
    }

    /** "Add DELIVERY-tags for test stations"; `isTestStation` stands for the group membership join. */
    method AddDeliveryTags(rows: seq<DeliveryRow>, isTestStation: int -> bool) returns (added: nat)
      modifies this
      ensures orgTags == old(orgTags) + Collect(DeliverySelection(rows, isTestStation), LacksDelivery, DeliveryTag)
      ensures added == CountIf(DeliverySelection(rows, isTestStation), LacksDelivery)
      ensures siteTags == old(siteTags)
    {
      var sel := DeliverySelection(rows, isTestStation);
      ghost var tags0 := orgTags;
      added := 0;
      var i := 0;
      while i < |sel|
        invariant 0 <= i <= |sel|
        invariant orgTags == tags0 + Collect(sel[..i], LacksDelivery, DeliveryTag)
        invariant |orgTags| == |tags0| + added
        invariant siteTags == old(siteTags)
      {
        CollectPrefixStep(sel, i, LacksDelivery, DeliveryTag);
        var row := sel[i];
        if !Truthy(row.deliveryId) {
          var v := if Truthy(row.requesterId) && row.requesterValue == Some("Y") then "VIA_DC" else "DIRECT";
          AppendAssoc(tags0, Collect(sel[..i], LacksDelivery, DeliveryTag), [DeliveryTag(row)]);
          assert OrgTag(row.organisationId, "DELIVERY", Some(v), false) == DeliveryTag(row);
          orgTags := orgTags + [OrgTag(row.organisationId, "DELIVERY", Some(v), false)];
          added := added + 1;
        }
        i := i + 1;
      }
      assert sel[..|sel|] == sel;
    }

    /** "Add CENTRAL-tags for warehouses". */
    method AddCentralTags(rows: seq<WarehouseRow>) returns (added: nat)
      modifies this
      ensures siteTags == old(siteTags) + Collect(Filter(rows, (r: WarehouseRow) => !r.deleted), LacksCentral, CentralTag)
      ensures added == CountIf(Filter(rows, (r: WarehouseRow) => !r.deleted), LacksCentral)
      ensures orgTags == old(orgTags)
    {
      var sel := Filter(rows, (r: WarehouseRow) => !r.deleted);
      ghost var tags0 := siteTags;
      added := 0;
      var i := 0;
      while i < |sel|
        invariant 0 <= i <= |sel|
        invariant siteTags == tags0 + Collect(sel[..i], LacksCentral, CentralTag)
        invariant |siteTags| == |tags0| + added
        invariant orgTags == old(orgTags)
      {
        CollectPrefixStep(sel, i, LacksCentral, CentralTag);
        var row := sel[i];
        if !Truthy(row.centralId) {
          AppendAssoc(tags0, Collect(sel[..i], LacksCentral, CentralTag), [CentralTag(row)]);
          siteTags := siteTags + [SiteTag(row.siteId, "CENTRAL", Some("N"), false)];
          added := added + 1;
        }
        i := i + 1;
      }
      assert sel[..|sel|] == sel;
    }

    /**
     * The whole script; `importOk` is the outcome of the item category
     * import. On failure the tag steps are skipped and nothing persists.
     */
    method Run(importOk: bool, deliveryRows: seq<DeliveryRow>, isTestStation: int -> bool,
               warehouseRows: seq<WarehouseRow>) returns (failed: bool)
      modifies this
      ensures failed <==> !importOk
      ensures failed ==> orgTags == old(orgTags) && siteTags == old(siteTags)
      ensures !failed ==>
                && orgTags == old(orgTags) + Collect(DeliverySelection(deliveryRows, isTestStation), LacksDelivery, DeliveryTag)
                && siteTags == old(siteTags) + Collect(Filter(warehouseRows, (r: WarehouseRow) => !r.deleted), LacksCentral, CentralTag)
    {
      failed := !importOk;
      if !failed {
        var _ := AddDeliveryTags(deliveryRows, isTestStation);
        var _ := AddCentralTags(warehouseRows);
      }
    }
  }
}
