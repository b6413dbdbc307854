/**
 * Pieces shared by the RLPPTM database upgrade scripts: the organisation
 * rows they read and the OrgID tag back-fill that two of them perform.
 *
 * Every script works inside one database transaction that starts with
 * `failed = False`; a step that fails sets the flag, later steps are
 * skipped, and at the end the transaction is rolled back when the flag is
 * set and committed otherwise. The classes of the script modules keep
 * their tables as sequence fields and restore a snapshot on rollback.
 */
module Migration {
  import opened Wrappers
  import opened Strings
  import opened Helpers

  /** An org_organisation row as the upgrade scripts read it. */
  datatype Org = Org(id: int, peId: Option<int>, uuid: Option<string>, deleted: bool)

  /** The OrgID tag for `org`: `"%06d%04d" % (uid, id)`, `randomUid` standing for the digits of a fresh uuid4. */
  function OrgIdTag(org: Org, randomUid: nat): OrgTag {
    OrgTag(org.id, "OrgID", Some(OrgIdValue(OrgUid(org.uuid, randomUid), org.id)), false)
  }

  /** The organisations the OrgID back-fill selects: live ones without a live OrgID tag. */
  function NeedsOrgId(orgs: seq<Org>, tags: seq<OrgTag>): seq<Org> {
    Filter(orgs, (o: Org) => !o.deleted && !HasOrgTag(tags, o.id, "OrgID"))
  }

  /** The tags the back-fill inserts for `rows`, in order; `random(i)` is the fallback uid of the i-th row. */
  function OrgIdTags(rows: seq<Org>, random: nat -> nat): (r: seq<OrgTag>)
    ensures |r| == |rows|
    ensures forall i :: 0 <= i < |rows| ==> r[i] == OrgIdTag(rows[i], random(i))
  {
    MapIndexed(rows, (o: Org, i: nat) => OrgIdTag(o, random(i)))
  }

  /** One more selected row adds its tag at the end (the step of the back-fill loop). */
  lemma OrgIdTagsSnoc(rows: seq<Org>, random: nat -> nat, i: nat)
    requires i < |rows|
    ensures OrgIdTags(rows[..i + 1], random) == OrgIdTags(rows[..i], random) + [OrgIdTag(rows[i], random(i))]
  {
    MapIndexedSnoc(rows, i, (o: Org, i: nat) => OrgIdTag(o, random(i)));
  }

  /**
   * The i-th inserted tag is the live OrgID tag of the i-th row. Its uid is
   * the hex value of `uuid[9:14]` when that parses and the random fallback
   * otherwise; for record ids below 10000 the value decodes back to uid and
   * id, and with a five-hex-digit uid it has 10 or 11 digits.
   */
  lemma OrgIdTagsEffect(rows: seq<Org>, random: nat -> nat)
    ensures var r := OrgIdTags(rows, random);
            forall i :: 0 <= i < |rows| ==>
              var uid := OrgUid(rows[i].uuid, random(i));
              && r[i].organisationId == rows[i].id && r[i].tag == "OrgID" && !r[i].deleted
              && r[i].value == Some(OrgIdValue(uid, rows[i].id))
              && (rows[i].uuid.Some? && ParseHex(Slice(rows[i].uuid.value, 9, 14)).Some? ==>
                    uid == ParseHex(Slice(rows[i].uuid.value, 9, 14)).value)
              && (rows[i].uuid.None? || ParseHex(Slice(rows[i].uuid.value, 9, 14)).None? ==> uid == random(i))
              && (0 <= rows[i].id < 10000 ==> DecodeOrgId(r[i].value.value) == Some((uid, rows[i].id as nat)))
              && (0 <= rows[i].id < 10000 && random(i) < Pow16(5) ==> 10 <= |r[i].value.value| <= 11)
  {
    var r := OrgIdTags(rows, random);
    forall i | 0 <= i < |rows|
      ensures 0 <= rows[i].id < 10000 ==>
                DecodeOrgId(r[i].value.value) == Some((OrgUid(rows[i].uuid, random(i)), rows[i].id as nat))
      ensures 0 <= rows[i].id < 10000 && random(i) < Pow16(5) ==> 10 <= |r[i].value.value| <= 11
    {
      if 0 <= rows[i].id < 10000 {
        OrgIdRoundTrip(OrgUid(rows[i].uuid, random(i)), rows[i].id);
      }
    }
  }

  /** Tags that are already present stay present when more are appended. */
  lemma HasOrgTagAppend(tags: seq<OrgTag>, more: seq<OrgTag>, organisationId: int, tag: string)
    requires HasOrgTag(tags, organisationId, tag)
    ensures HasOrgTag(tags + more, organisationId, tag)
  {
    var i :| 0 <= i < |tags| && tags[i].organisationId == organisationId && tags[i].tag == tag && !tags[i].deleted;
    assert (tags + more)[i] == tags[i];
  }

  /** Tags that are already present stay present when more are appended. */
  lemma HasSiteTagAppend(tags: seq<SiteTag>, more: seq<SiteTag>, siteId: int, tag: string)
    requires HasSiteTag(tags, siteId, tag)
    ensures HasSiteTag(tags + more, siteId, tag)
  {
    var i :| 0 <= i < |tags| && tags[i].siteId == siteId && tags[i].tag == tag && !tags[i].deleted;
    assert (tags + more)[i] == tags[i];
  }

  /**
   * After the back-fill every live organisation has a live OrgID tag, so
   * running it again selects nothing.
   */
  lemma OrgIdBackfillComplete(orgs: seq<Org>, tags: seq<OrgTag>, random: nat -> nat)
    ensures var tags' := tags + OrgIdTags(NeedsOrgId(orgs, tags), random);
            && (forall o :: o in orgs && !o.deleted ==> HasOrgTag(tags', o.id, "OrgID"))
            && NeedsOrgId(orgs, tags') == []
  {
    var rows := NeedsOrgId(orgs, tags);
    var added := OrgIdTags(rows, random);
    var tags' := tags + added;
    forall o | o in orgs && !o.deleted
      ensures HasOrgTag(tags', o.id, "OrgID")
    {
      if HasOrgTag(tags, o.id, "OrgID") {
        HasOrgTagAppend(tags, added, o.id, "OrgID");
      } else {
        FilterComplete(orgs, (o: Org) => !o.deleted && !HasOrgTag(tags, o.id, "OrgID"), o);
        var i :| 0 <= i < |rows| && rows[i] == o;
        assert added[i] == OrgIdTag(o, random(i));
        assert tags'[|tags| + i] == added[i];
      }
    }
    FilterNone(orgs, (o: Org) => !o.deleted && !HasOrgTag(tags', o.id, "OrgID"));
  }
}
