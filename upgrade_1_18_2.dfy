/**
 * RLPPTM upgrade 1.18.2 => 1.19.0: organisation types get their missing
 * MINFOREQ/VERIFREQ tags, providers get verifications, facility approvals
 * are migrated from the workflow tags, and providers with a public
 * facility get a commission; any failed import rolls everything back.
 * Dates are `yyyymmdd` numbers, so their order is the order of the dates.
 */
module Upgrade1182 {
  import opened Wrappers

  /** The end date of the generated commissions, 24 November 2022. */
  const CommissionEnd := 20221124

  // ---------------------------------------------------------------------------
  // Type tags

  /** An org_organisation_type_tag row. */
  datatype TypeTag = TypeTag(typeId: int, tag: string, value: Option<string>, deleted: bool)

  /** An organisation type with the ids of its MINFOREQ and VERIFREQ tags (left joins). */
  datatype TypeRow = TypeRow(typeId: int, deleted: bool, minforeqId: Option<int>, verifreqId: Option<int>)

  /** The type query: live types lacking one of the two tags. */
  predicate LacksRequirement(row: TypeRow) {
    !row.deleted && (row.minforeqId.None? || row.verifreqId.None?)
  }

  /** The tags inserted for one type. */
  function MissingTypeTags(row: TypeRow): seq<TypeTag> {
    (if !Truthy(row.minforeqId) then [TypeTag(row.typeId, "MINFOREQ", Some("N"), false)] else [])
    + (if !Truthy(row.verifreqId) then [TypeTag(row.typeId, "VERIFREQ", Some("N"), false)] else [])
  }

  /** A type gets an "N" tag for each of MINFOREQ and VERIFREQ it lacks, and no other tag. */
  lemma MissingTypeTagsEffect(row: TypeRow)
    ensures TypeTag(row.typeId, "MINFOREQ", Some("N"), false) in MissingTypeTags(row) <==> !Truthy(row.minforeqId)
    ensures TypeTag(row.typeId, "VERIFREQ", Some("N"), false) in MissingTypeTags(row) <==> !Truthy(row.verifreqId)
    ensures forall t :: t in MissingTypeTags(row) ==>
              t.typeId == row.typeId && (t.tag == "MINFOREQ" || t.tag == "VERIFREQ") && t.value == Some("N") && !t.deleted
  {
  }

  /** All tags inserted by the loop over `rows`. */
  function TypeTagsAdded(rows: seq<TypeRow>): seq<TypeTag> {
    if rows == [] then [] else TypeTagsAdded(rows[..|rows| - 1]) + MissingTypeTags(rows[|rows| - 1])
  }

  lemma TypeTagsAddedSnoc(rows: seq<TypeRow>, i: nat)
    requires i < |rows|
    ensures TypeTagsAdded(rows[..i + 1]) == TypeTagsAdded(rows[..i]) + MissingTypeTags(rows[i])
  {
    assert rows[..i + 1][..i] == rows[..i];
  }

  /** The two conditional inserts of one type append its missing tags. */
  lemma AddTypeTagsStep(tags0: seq<TypeTag>, added: seq<TypeTag>, row: TypeRow)
    ensures var a := tags0 + added;
            var b := if !Truthy(row.minforeqId) then a + [TypeTag(row.typeId, "MINFOREQ", Some("N"), false)] else a;
            var c := if !Truthy(row.verifreqId) then b + [TypeTag(row.typeId, "VERIFREQ", Some("N"), false)] else b;
            c == tags0 + (added + MissingTypeTags(row))
  {
  }

  /**
   * Every selected type that lacks MINFOREQ or VERIFREQ gets that tag with
   * value "N", and every inserted tag is such a tag.
   */
  lemma {:induction false} TypeTagsEffect(rows: seq<TypeRow>)
    ensures forall row :: row in rows && !Truthy(row.minforeqId) ==>
              TypeTag(row.typeId, "MINFOREQ", Some("N"), false) in TypeTagsAdded(rows)
    ensures forall row :: row in rows && !Truthy(row.verifreqId) ==>
              TypeTag(row.typeId, "VERIFREQ", Some("N"), false) in TypeTagsAdded(rows)
    ensures forall t :: t in TypeTagsAdded(rows) ==>
              && t.value == Some("N") && !t.deleted
              && exists row :: row in rows && t.typeId == row.typeId &&
                   ((t.tag == "MINFOREQ" && !Truthy(row.minforeqId)) || (t.tag == "VERIFREQ" && !Truthy(row.verifreqId)))
  {
    if rows != [] {
      var n := |rows| - 1;
      TypeTagsEffect(rows[..n]);
      MissingTypeTagsEffect(rows[n]);
      assert forall row :: row in rows <==> row in rows[..n] || row == rows[n];
      forall t | t in TypeTagsAdded(rows)
        ensures exists row :: row in rows && t.typeId == row.typeId &&
                  ((t.tag == "MINFOREQ" && !Truthy(row.minforeqId)) || (t.tag == "VERIFREQ" && !Truthy(row.verifreqId)))
      {
        if t !in TypeTagsAdded(rows[..n]) {
          assert t in MissingTypeTags(rows[n]);
          assert rows[n] in rows;
        }
      }
    }
  }

  // ---------------------------------------------------------------------------
  // Provider verifications

  /** An org_verification record (the fields the script reads or writes). */
  datatype Verification = Verification(orgtype: Option<string>, mgrinfo: Option<string>, accepted: bool, dhash: Option<string>)

  /**
   * What `provider.vhash()` returns: the entries of its update dict for
   * `orgtype` and `mgrinfo` (None where there is no entry) and the hash.
   */
  datatype HashUpdate = HashUpdate(orgtype: Option<string>, mgrinfo: Option<string>, vhash: Option<string>)

  datatype OrgRow = OrgRow(id: int, deleted: bool)

  /** `update.get(name) or verification.name`. */
  function Effective(entry: Option<string>, current: Option<string>): Option<string> {
    if TruthyStr(entry) then entry else current
  }

  /**
   * The verification after its update: it carries the new hash; its type
   * check is VERIFIED unless the effective type check is ACCEPT; and it is
   * accepted iff the effective manager info is VERIFIED or ACCEPT.
   */
  function Verified(v: Verification, u: HashUpdate): (r: Verification)
    ensures r.dhash == u.vhash
    ensures Effective(u.orgtype, v.orgtype) != Some("ACCEPT") ==> r.orgtype == Some("VERIFIED")
    ensures Effective(u.orgtype, v.orgtype) == Some("ACCEPT") ==> r.orgtype == (if u.orgtype.Some? then u.orgtype else v.orgtype)
    ensures r.accepted <==> Effective(u.mgrinfo, v.mgrinfo) == Some("VERIFIED") || Effective(u.mgrinfo, v.mgrinfo) == Some("ACCEPT")
    ensures r.mgrinfo == (if u.mgrinfo.Some? then u.mgrinfo else v.mgrinfo)
  {
    var orgtype := Effective(u.orgtype, v.orgtype);
    var mgrinfo := Effective(u.mgrinfo, v.mgrinfo);
    Verification(if orgtype != Some("ACCEPT") then Some("VERIFIED") else if u.orgtype.Some? then u.orgtype else v.orgtype,
                 if u.mgrinfo.Some? then u.mgrinfo else v.mgrinfo,
                 mgrinfo == Some("VERIFIED") || mgrinfo == Some("ACCEPT"),
                 u.vhash)
  }

  /** The verification query: live organisations without a verification. */
  function NeedsVerification(orgs: seq<OrgRow>, verifications: map<int, Verification>): seq<OrgRow> {
    Filter(orgs, (o: OrgRow) => !o.deleted && o.id !in verifications)
  }

  /**
   * One organisation: `provider.verification` (the stored one, or the
   * default record `defaultOf` that the provider creates); one that
   * already has a hash is kept as it is, any other is updated.
   */
  function VerifyStep(vs: map<int, Verification>, org: int, defaultOf: int -> Verification,
                      hashOf: int -> HashUpdate): map<int, Verification>
  {
    var v := if org in vs then vs[org] else defaultOf(org);
    if TruthyStr(v.dhash) then vs[org := v] else vs[org := Verified(v, hashOf(org))]
  }

  function GenerateVerifications(vs: map<int, Verification>, rows: seq<OrgRow>, defaultOf: int -> Verification,
                                 hashOf: int -> HashUpdate): map<int, Verification>
  {
    if rows == [] then vs
    else VerifyStep(GenerateVerifications(vs, rows[..|rows| - 1], defaultOf, hashOf), rows[|rows| - 1].id, defaultOf, hashOf)
  }

  lemma GenerateVerificationsSnoc(vs: map<int, Verification>, rows: seq<OrgRow>, i: nat,
                                  defaultOf: int -> Verification, hashOf: int -> HashUpdate)
    requires i < |rows|
    ensures GenerateVerifications(vs, rows[..i + 1], defaultOf, hashOf)
            == VerifyStep(GenerateVerifications(vs, rows[..i], defaultOf, hashOf), rows[i].id, defaultOf, hashOf)
  {
    assert rows[..i + 1][..i] == rows[..i];
  }

  /** VerifyStep as the two writes the loop makes. */
  lemma VerifyStepUpdates(vs: map<int, Verification>, org: int, v: Verification,
                          defaultOf: int -> Verification, hashOf: int -> HashUpdate)
    requires v == if org in vs then vs[org] else defaultOf(org)
    ensures VerifyStep(vs, org, defaultOf, hashOf)
            == if TruthyStr(v.dhash) then vs[org := v] else vs[org := v][org := Verified(v, hashOf(org))]
  {
    assert vs[org := v][org := Verified(v, hashOf(org))] == vs[org := Verified(v, hashOf(org))];
  }

  /** The expected verification of an organisation the query selects. */
  function NewVerification(org: int, defaultOf: int -> Verification, hashOf: int -> HashUpdate): Verification {
    if TruthyStr(defaultOf(org).dhash) then defaultOf(org) else Verified(defaultOf(org), hashOf(org))
  }

  /** The loop gives a verification to every organisation it visits, and removes none. */
  lemma {:induction false} GenerateVerificationsKeys(vs: map<int, Verification>, rows: seq<OrgRow>,
                                                     defaultOf: int -> Verification, hashOf: int -> HashUpdate)
    ensures GenerateVerifications(vs, rows, defaultOf, hashOf).Keys == vs.Keys + (set row | row in rows :: row.id)
  {
    if rows != [] {
      var n := |rows| - 1;
      assert forall row :: row in rows <==> row in rows[..n] || row == rows[n];
      GenerateVerificationsKeys(vs, rows[..n], defaultOf, hashOf);
    }
  }

  /**
   * When the query returns each organisation once, the loop leaves every
   * stored verification as it was and gives each selected organisation
   * its default record, updated unless that already has a hash.
   */
  lemma {:induction false} GenerateVerificationsEffect(vs: map<int, Verification>, rows: seq<OrgRow>,
                                                       defaultOf: int -> Verification, hashOf: int -> HashUpdate)
    requires forall i, j :: 0 <= i < j < |rows| ==> rows[i].id != rows[j].id
    requires forall row :: row in rows ==> row.id !in vs
    ensures forall org :: org in vs ==>
              org in GenerateVerifications(vs, rows, defaultOf, hashOf) && GenerateVerifications(vs, rows, defaultOf, hashOf)[org] == vs[org]
    ensures forall row :: row in rows ==>
              && row.id in GenerateVerifications(vs, rows, defaultOf, hashOf)
              && GenerateVerifications(vs, rows, defaultOf, hashOf)[row.id] == NewVerification(row.id, defaultOf, hashOf)
  {
    GenerateVerificationsKeys(vs, rows, defaultOf, hashOf);
    if rows != [] {
      var n := |rows| - 1;
      assert forall row :: row in rows <==> row in rows[..n] || row == rows[n];
      GenerateVerificationsEffect(vs, rows[..n], defaultOf, hashOf);
      GenerateVerificationsKeys(vs, rows[..n], defaultOf, hashOf);
      var t := GenerateVerifications(vs, rows[..n], defaultOf, hashOf);
      forall row | row in rows[..n]
        ensures row.id != rows[n].id
      {
        var i :| 0 <= i < n && rows[..n][i] == row;
      }
      assert rows[n].id !in t;
    }
  }

  /** After the step every live organisation has a verification. */
  lemma VerificationComplete(vs: map<int, Verification>, orgs: seq<OrgRow>, defaultOf: int -> Verification,
                             hashOf: int -> HashUpdate)
    ensures var r := GenerateVerifications(vs, NeedsVerification(orgs, vs), defaultOf, hashOf);
            forall o :: o in orgs && !o.deleted ==> o.id in r
  {
    var rows := NeedsVerification(orgs, vs);
    GenerateVerificationsKeys(vs, rows, defaultOf, hashOf);
    forall o | o in orgs && !o.deleted && o.id !in vs
      ensures o in rows
    {
      FilterComplete(orgs, (o: OrgRow) => !o.deleted && o.id !in vs, o);
    }
  }

  // ---------------------------------------------------------------------------
  // Facility approvals

  /** A left-joined site tag: absent, or present with its value. */
  datatype Joined = Missing | Present(value: Option<string>)

  /** A live facility with its advice (site details) and its MPAV, HYGIENE, LAYOUT and PUBLIC tags. */
  datatype ApprovalRow = ApprovalRow(siteId: int, advice: Option<string>, mpav: Joined, hygiene: Joined, layout: Joined,
                                     public: Joined)

  /** An org_site_approval record (the fields the script reads or writes). */
  datatype Approval = Approval(mpav: Option<string>, hygiene: Option<string>, layout: Option<string>,
                               status: Option<string>, public: Option<string>, publicReason: Option<string>,
                               advice: Option<string>, dhash: Option<string>)

  /** A missing workflow tag counts as REVISE. */
  function TagValue(tag: Joined): Option<string> {
    if tag.Present? then tag.value else Some("REVISE")
  }

  /** The processing status of the three workflow values. */
  function ApprovalStatus(m: Option<string>, h: Option<string>, l: Option<string>): (s: string)
    ensures s == "APPROVED" <==> m == Some("APPROVED") && h == Some("APPROVED") && l == Some("APPROVED")
    ensures s == "REVIEW" <==> s != "APPROVED" && (m == Some("REVIEW") || h == Some("REVIEW") || l == Some("REVIEW"))
    ensures s == "APPROVED" || s == "REVIEW" || s == "REVISE"
  {
    if m == Some("APPROVED") && h == Some("APPROVED") && l == Some("APPROVED") then "APPROVED"
    else if m == Some("REVIEW") || h == Some("REVIEW") || l == Some("REVIEW") then "REVIEW"
    else "REVISE"
  }

  /** The approval record after the migration of `row`. */
  function Migrated(row: ApprovalRow, vhash: Option<string>): (r: Approval)
    ensures r.mpav == TagValue(row.mpav) && r.hygiene == TagValue(row.hygiene) && r.layout == TagValue(row.layout)
    ensures r.status == Some(ApprovalStatus(r.mpav, r.hygiene, r.layout))
    ensures r.status == Some("APPROVED") ==>
              && r.public == (if row.public.Present? then row.public.value else Some("Y"))
              && r.publicReason == (if r.public == Some("N") then Some("OVERRIDE") else None)
    ensures r.status != Some("APPROVED") ==> r.public == Some("N") && r.publicReason == r.status
    ensures r.advice == row.advice && r.dhash == vhash
  {
    var m, h, l := TagValue(row.mpav), TagValue(row.hygiene), TagValue(row.layout);
    var status := ApprovalStatus(m, h, l);
    var public := if status == "APPROVED" then (if row.public.Present? then row.public.value else Some("Y")) else Some("N");
    var reason := if status == "APPROVED" then (if public == Some("N") then Some("OVERRIDE") else None) else Some(status);
    Approval(m, h, l, Some(status), public, reason, row.advice, vhash)
  }

  /** The approvals keyed by site, and the sites whose approval history was updated, in order. */
  datatype ApprovalState = ApprovalState(approvals: map<int, Approval>, history: seq<int>)

  /** `ts.approval`: the stored record, or the default one the test station creates. */
  function CurrentApproval(approvals: map<int, Approval>, siteId: int, defaultApproval: int -> Approval): Approval {
    if siteId in approvals then approvals[siteId] else defaultApproval(siteId)
  }

  /** One facility: an approval that already has a hash is kept; any other is migrated and its history updated. */
  function MigrateStep(s: ApprovalState, row: ApprovalRow, defaultApproval: int -> Approval,
                       siteHash: int -> Option<string>): ApprovalState
  {
    var a := CurrentApproval(s.approvals, row.siteId, defaultApproval);
    if TruthyStr(a.dhash) then ApprovalState(s.approvals[row.siteId := a], s.history)
    else ApprovalState(s.approvals[row.siteId := Migrated(row, siteHash(row.siteId))], s.history + [row.siteId])
  }

  function MigrateApprovals(s: ApprovalState, rows: seq<ApprovalRow>, defaultApproval: int -> Approval,
                            siteHash: int -> Option<string>): ApprovalState
  {
    if rows == [] then s
    else MigrateStep(MigrateApprovals(s, rows[..|rows| - 1], defaultApproval, siteHash), rows[|rows| - 1], defaultApproval, siteHash)
  }

  /** One pass of the migration loop, as the writes it makes. */
  lemma MigrateLoopStep(s0: ApprovalState, rows: seq<ApprovalRow>, i: nat, approvals: map<int, Approval>, history: seq<int>,
                        defaultApproval: int -> Approval, siteHash: int -> Option<string>)
    requires i < |rows|
    requires ApprovalState(approvals, history) == MigrateApprovals(s0, rows[..i], defaultApproval, siteHash)
    ensures var row := rows[i];
            var a := if row.siteId in approvals then approvals[row.siteId] else defaultApproval(row.siteId);
            MigrateApprovals(s0, rows[..i + 1], defaultApproval, siteHash)
            == if TruthyStr(a.dhash) then ApprovalState(approvals[row.siteId := a], history)
               else ApprovalState(approvals[row.siteId := a][row.siteId := Migrated(row, siteHash(row.siteId))], history + [row.siteId])
  {
    assert rows[..i + 1][..i] == rows[..i];
    var row := rows[i];
    var a := if row.siteId in approvals then approvals[row.siteId] else defaultApproval(row.siteId);
    assert approvals[row.siteId := a][row.siteId := Migrated(row, siteHash(row.siteId))]
        == approvals[row.siteId := Migrated(row, siteHash(row.siteId))];
  }

  /** The facilities whose approval the loop migrates: those whose approval has no hash. */
  function Unhashed(approvals: map<int, Approval>, defaultApproval: int -> Approval): ApprovalRow -> bool {
    (row: ApprovalRow) => !TruthyStr(CurrentApproval(approvals, row.siteId, defaultApproval).dhash)
  }

  /** The loop gives an approval to every facility it visits, and removes none. */
  lemma {:induction false} MigrateApprovalsKeys(s: ApprovalState, rows: seq<ApprovalRow>,
                                                defaultApproval: int -> Approval, siteHash: int -> Option<string>)
    ensures MigrateApprovals(s, rows, defaultApproval, siteHash).approvals.Keys == s.approvals.Keys + (set row | row in rows :: row.siteId)
  {
    if rows != [] {
      var n := |rows| - 1;
      assert forall row :: row in rows <==> row in rows[..n] || row == rows[n];
      MigrateApprovalsKeys(s, rows[..n], defaultApproval, siteHash);
    }
  }

  /** With one row per facility, the approval a row finds is the one it had before the loop. */
  lemma FirstVisit(s: ApprovalState, rows: seq<ApprovalRow>, defaultApproval: int -> Approval, siteHash: int -> Option<string>)
    requires rows != []
    requires forall i, j :: 0 <= i < j < |rows| ==> rows[i].siteId != rows[j].siteId
    ensures var n := |rows| - 1;
            && (forall row :: row in rows[..n] ==> row.siteId != rows[n].siteId)
            && CurrentApproval(MigrateApprovals(s, rows[..n], defaultApproval, siteHash).approvals, rows[n].siteId, defaultApproval)
               == CurrentApproval(s.approvals, rows[n].siteId, defaultApproval)
  {
    var n := |rows| - 1;
    forall row | row in rows[..n]
      ensures row.siteId != rows[n].siteId
    {
      var i :| 0 <= i < n && rows[..n][i] == row;
    }
    MigrateApprovalsUntouched(s, rows[..n], defaultApproval, siteHash, rows[n].siteId);
    MigrateApprovalsKeys(s, rows[..n], defaultApproval, siteHash);
  }

  /** A site the query does not return keeps its approval. */
  lemma {:induction false} MigrateApprovalsUntouched(s: ApprovalState, rows: seq<ApprovalRow>,
                                                     defaultApproval: int -> Approval, siteHash: int -> Option<string>, site: int)
    requires forall row :: row in rows ==> row.siteId != site
    ensures site in s.approvals ==>
              site in MigrateApprovals(s, rows, defaultApproval, siteHash).approvals &&
              MigrateApprovals(s, rows, defaultApproval, siteHash).approvals[site] == s.approvals[site]
  {
    MigrateApprovalsKeys(s, rows, defaultApproval, siteHash);
    if rows != [] {
      var n := |rows| - 1;
      assert rows[n] in rows;
      MigrateApprovalsUntouched(s, rows[..n], defaultApproval, siteHash, site);
    }
  }

  /**
   * With one row per facility, an approval that already had a hash is
   * kept as it was, and every other facility's approval is the migrated
   * record.
   */
  lemma {:induction false} MigrateApprovalsEffect(s: ApprovalState, rows: seq<ApprovalRow>,
                                                  defaultApproval: int -> Approval, siteHash: int -> Option<string>)
    requires forall i, j :: 0 <= i < j < |rows| ==> rows[i].siteId != rows[j].siteId
    ensures forall row :: row in rows ==>
              && row.siteId in MigrateApprovals(s, rows, defaultApproval, siteHash).approvals
              && MigrateApprovals(s, rows, defaultApproval, siteHash).approvals[row.siteId] ==
                 if Unhashed(s.approvals, defaultApproval)(row) then Migrated(row, siteHash(row.siteId))
                 else CurrentApproval(s.approvals, row.siteId, defaultApproval)
  {
    if rows != [] {
      var n := |rows| - 1;
      assert forall row :: row in rows <==> row in rows[..n] || row == rows[n];
      MigrateApprovalsEffect(s, rows[..n], defaultApproval, siteHash);
      FirstVisit(s, rows, defaultApproval, siteHash);
    }
  }

  /** With one row per facility, the approval history is updated once for each migrated facility, in order. */
  lemma {:induction false} MigrateApprovalsHistory(s: ApprovalState, rows: seq<ApprovalRow>,
                                                   defaultApproval: int -> Approval, siteHash: int -> Option<string>)
    requires forall i, j :: 0 <= i < j < |rows| ==> rows[i].siteId != rows[j].siteId
    ensures MigrateApprovals(s, rows, defaultApproval, siteHash).history ==
            s.history + Collect(rows, Unhashed(s.approvals, defaultApproval), (row: ApprovalRow) => row.siteId)
  {
    if rows != [] {
      var n := |rows| - 1;
      assert rows == rows[..n] + [rows[n]];
      MigrateApprovalsHistory(s, rows[..n], defaultApproval, siteHash);
      CollectSnoc(rows[..n], rows[n], Unhashed(s.approvals, defaultApproval), (row: ApprovalRow) => row.siteId);
      FirstVisit(s, rows, defaultApproval, siteHash);
    }
  }

  // ---------------------------------------------------------------------------
  // Commissions

  /** The status of a commission (the `org_commission.status` options the script uses). */
  datatype CommissionStatus = Current | Suspended | Expired

  /** An org_commission record. */
  datatype Commission = Commission(organisationId: int, date: int, endDate: int, status: CommissionStatus,
                                   prevStatus: CommissionStatus, statusDate: int, statusReason: Option<string>)

  /** A call of `TestStation.update_all(organisation, public="N", reason=...)`. */
  datatype Suspension = Suspension(organisationId: int, reason: string)

  /** The status of a new commission: expired after the end date, else current iff the provider is accepted. */
  function StatusOf(today: int, accepted: bool): (st: CommissionStatus)
    ensures st == Expired <==> CommissionEnd < today
    ensures st == Current <==> today <= CommissionEnd && accepted
    ensures st == Suspended <==> today <= CommissionEnd && !accepted
  {
    if CommissionEnd < today then Expired else if accepted then Current else Suspended
  }

  /** `provider.verification.accepted`. */
  function Accepted(vs: map<int, Verification>, org: int, defaultOf: int -> Verification): bool {
    if org in vs then vs[org].accepted else defaultOf(org).accepted
  }

  function NewCommission(org: int, today: int, accepted: bool): Commission {
    var status := StatusOf(today, accepted);
    Commission(org, today, CommissionEnd, status, Current, today, if status == Suspended then Some("N/V") else None)
  }

  /** The values one pass of the commission loop writes. */
  lemma CommissionStep(vs: map<int, Verification>, defaultOf: int -> Verification, today: int, org: int, accepted: bool)
    requires accepted == if org in vs then vs[org].accepted else defaultOf(org).accepted
    ensures var status := StatusOf(today, accepted);
            && NewCommission(org, today, Accepted(vs, org, defaultOf))
               == Commission(org, today, CommissionEnd, status, Current, today, if status == Suspended then Some("N/V") else None)
            && NotCurrent(vs, defaultOf, today)(org) == (status != Current)
            && SuspensionOf(vs, defaultOf, today)(org) == Suspension(org, if status == Suspended then "SUSPENDED" else "COMMISSION")
  {
  }

  /** One pass of the commission loop appends the next commission. */
  lemma CommissionAppend(cs0: seq<Commission>, cs: seq<Commission>, orgIds: seq<int>, i: nat,
                         vs: map<int, Verification>, defaultOf: int -> Verification, today: int, c: Commission)
    requires i < |orgIds| && cs == cs0 + Commissions(orgIds[..i], vs, defaultOf, today)
    requires c == NewCommission(orgIds[i], today, Accepted(vs, orgIds[i], defaultOf))
    ensures cs + [c] == cs0 + Commissions(orgIds[..i + 1], vs, defaultOf, today)
  {
    CommissionsSnoc(orgIds, vs, defaultOf, today, i);
    AppendAssoc(cs0, Commissions(orgIds[..i], vs, defaultOf, today), [c]);
  }

  /** The commissions inserted for the selected organisations, in order. */
  function Commissions(orgIds: seq<int>, vs: map<int, Verification>, defaultOf: int -> Verification, today: int): (r: seq<Commission>)
    ensures |r| == |orgIds|
  {
    if orgIds == [] then []
    else
      var org := orgIds[|orgIds| - 1];
      Commissions(orgIds[..|orgIds| - 1], vs, defaultOf, today) + [NewCommission(org, today, Accepted(vs, org, defaultOf))]
  }

  lemma CommissionsSnoc(orgIds: seq<int>, vs: map<int, Verification>, defaultOf: int -> Verification, today: int, i: nat)
    requires i < |orgIds|
    ensures Commissions(orgIds[..i + 1], vs, defaultOf, today) ==
            Commissions(orgIds[..i], vs, defaultOf, today) + [NewCommission(orgIds[i], today, Accepted(vs, orgIds[i], defaultOf))]
  {
    assert orgIds[..i + 1][..i] == orgIds[..i];
  }

  /** The organisations whose new commission is not current. */
  function NotCurrent(vs: map<int, Verification>, defaultOf: int -> Verification, today: int): int -> bool {
    org => StatusOf(today, Accepted(vs, org, defaultOf)) != Current
  }

  /** The reason the facilities of an organisation are taken off the public list. */
  function SuspensionOf(vs: map<int, Verification>, defaultOf: int -> Verification, today: int): int -> Suspension {
    org => Suspension(org, if StatusOf(today, Accepted(vs, org, defaultOf)) == Suspended then "SUSPENDED" else "COMMISSION")
  }

  /**
   * Each selected organisation gets one commission, dated today, ending on
   * the fixed end date, previously CURRENT, with the status the rule gives
   * and reason "N/V" exactly when suspended.
   */
  lemma {:induction false} CommissionsEffect(orgIds: seq<int>, vs: map<int, Verification>, defaultOf: int -> Verification, today: int)
    ensures var cs := Commissions(orgIds, vs, defaultOf, today);
            forall i :: 0 <= i < |orgIds| ==>
              && cs[i].organisationId == orgIds[i] && cs[i].endDate == CommissionEnd
              && cs[i].date == today && cs[i].statusDate == today && cs[i].prevStatus == Current
              && (cs[i].status == Expired <==> CommissionEnd < today)
              && (cs[i].status == Current <==> today <= CommissionEnd && Accepted(vs, orgIds[i], defaultOf))
              && (cs[i].statusReason == Some("N/V") <==> cs[i].status == Suspended)
              && (cs[i].statusReason.None? <==> cs[i].status != Suspended)
    decreases |orgIds|
  {
    if orgIds != [] {
      CommissionsEffect(orgIds[..|orgIds| - 1], vs, defaultOf, today);
    }
  }

  /**
   * The facilities of an organisation are taken off the public list iff
   * its new commission is not current, with reason SUSPENDED for a
   * suspended commission and COMMISSION for an expired one.
   */
  lemma SuspensionsEffect(orgIds: seq<int>, vs: map<int, Verification>, defaultOf: int -> Verification, today: int)
    ensures var calls := Collect(orgIds, NotCurrent(vs, defaultOf, today), SuspensionOf(vs, defaultOf, today));
            && (forall org :: org in orgIds && StatusOf(today, Accepted(vs, org, defaultOf)) == Suspended ==>
                  Suspension(org, "SUSPENDED") in calls)
            && (forall org :: org in orgIds && StatusOf(today, Accepted(vs, org, defaultOf)) == Expired ==>
                  Suspension(org, "COMMISSION") in calls)
            && (forall c :: c in calls ==>
                  && c.organisationId in orgIds
                  && StatusOf(today, Accepted(vs, c.organisationId, defaultOf)) != Current
                  && (c.reason == "SUSPENDED" <==> StatusOf(today, Accepted(vs, c.organisationId, defaultOf)) == Suspended))
  {
    CollectMembers(orgIds, NotCurrent(vs, defaultOf, today), SuspensionOf(vs, defaultOf, today));
    var calls := Collect(orgIds, NotCurrent(vs, defaultOf, today), SuspensionOf(vs, defaultOf, today));
    forall org | org in orgIds && StatusOf(today, Accepted(vs, org, defaultOf)) == Suspended
      ensures Suspension(org, "SUSPENDED") in calls
    {
      assert NotCurrent(vs, defaultOf, today)(org);
      assert SuspensionOf(vs, defaultOf, today)(org) == Suspension(org, "SUSPENDED");
    }
    forall org | org in orgIds && StatusOf(today, Accepted(vs, org, defaultOf)) == Expired
      ensures Suspension(org, "COMMISSION") in calls
    {
      assert NotCurrent(vs, defaultOf, today)(org);
      assert SuspensionOf(vs, defaultOf, today)(org) == Suspension(org, "COMMISSION");
    }
  }

  // ---------------------------------------------------------------------------
  // The script

  /** The tables the script touches, and the calls it makes. */
  class ProviderUpgrade {
    var typeTags: seq<TypeTag>
    var verifications: map<int, Verification>
    var approvals: map<int, Approval>
    var history: seq<int>
    var commissions: seq<Commission>
    var suspensions: seq<Suspension>

    constructor (typeTags: seq<TypeTag>, verifications: map<int, Verification>, approvals: map<int, Approval>,
                 commissions: seq<Commission>)
      ensures this.typeTags == typeTags && this.verifications == verifications && this.approvals == approvals
      ensures this.commissions == commissions && history == [] && suspensions == []
    {
      this.typeTags := typeTags;
      this.verifications := verifications;
      this.approvals := approvals;
      this.commissions := commissions;
      history := [];
      suspensions := [];
    }

    /** "Add missing type tags"; `updated` counts the types fixed. */
    method AddTypeTags(rows: seq<TypeRow>) returns (updated: nat)
      modifies this
      ensures typeTags == old(typeTags) + TypeTagsAdded(Filter(rows, LacksRequirement))
      ensures updated == |Filter(rows, LacksRequirement)|
      ensures verifications == old(verifications) && approvals == old(approvals) && history == old(history)
      ensures commissions == old(commissions) && suspensions == old(suspensions)
    {
      var sel := Filter(rows, LacksRequirement);
      ghost var tags0 := typeTags;
      updated := 0;
      var i := 0;
      while i < |sel|
        invariant 0 <= i <= |sel|
        invariant typeTags == tags0 + TypeTagsAdded(sel[..i])
        invariant updated == i
        invariant verifications == old(verifications) && approvals == old(approvals) && history == old(history)
        invariant commissions == old(commissions) && suspensions == old(suspensions)
      {
        TypeTagsAddedSnoc(sel, i);
        var row := sel[i];
        AddTypeTagsStep(tags0, TypeTagsAdded(sel[..i]), row);
        if !Truthy(row.minforeqId) {
          typeTags := typeTags + [TypeTag(row.typeId, "MINFOREQ", Some("N"), false)];
        }
        if !Truthy(row.verifreqId) {
          typeTags := typeTags + [TypeTag(row.typeId, "VERIFREQ", Some("N"), false)];
        }
        updated := updated + 1;
        i := i + 1;
      }
      assert sel[..|sel|] == sel;
    }

    /** "Generate provider verifications"; `added` counts the verifications updated. */
    method GenerateProviderVerifications(orgs: seq<OrgRow>, defaultOf: int -> Verification, hashOf: int -> HashUpdate)
      returns (added: nat)
      modifies this
      ensures verifications == GenerateVerifications(old(verifications), NeedsVerification(orgs, old(verifications)), defaultOf, hashOf)
      ensures typeTags == old(typeTags) && approvals == old(approvals) && history == old(history)
      ensures commissions == old(commissions) && suspensions == old(suspensions)
    {
      var rows := NeedsVerification(orgs, verifications);
      ghost var vs0 := verifications;
      added := 0;
      var i := 0;
      while i < |rows|
        invariant 0 <= i <= |rows|
        invariant verifications == GenerateVerifications(vs0, rows[..i], defaultOf, hashOf)
        invariant typeTags == old(typeTags) && approvals == old(approvals) && history == old(history)
        invariant commissions == old(commissions) && suspensions == old(suspensions)
      {
        GenerateVerificationsSnoc(vs0, rows, i, defaultOf, hashOf);
        ghost var before := verifications;
        var org := rows[i].id;
        var v := if org in verifications then verifications[org] else defaultOf(org);
        VerifyStepUpdates(before, org, v, defaultOf, hashOf);
        verifications := verifications[org := v];
        if !TruthyStr(v.dhash) {
          verifications := verifications[org := Verified(v, hashOf(org))];
          added := added + 1;
        }
        i := i + 1;
      }
      assert rows[..|rows|] == rows;
    }

    /** "Migrate facility approvals"; `added` counts the approvals migrated. */
    method MigrateFacilityApprovals(rows: seq<ApprovalRow>, defaultApproval: int -> Approval, siteHash: int -> Option<string>)
      returns (added: nat)
      modifies this
      ensures ApprovalState(approvals, history) ==
              MigrateApprovals(ApprovalState(old(approvals), old(history)), rows, defaultApproval, siteHash)
      ensures added == |history| - |old(history)|
      ensures typeTags == old(typeTags) && verifications == old(verifications)
      ensures commissions == old(commissions) && suspensions == old(suspensions)
    {
      ghost var s0 := ApprovalState(approvals, history);
      added := 0;
      var i := 0;
      while i < |rows|
        invariant 0 <= i <= |rows|
        invariant ApprovalState(approvals, history) == MigrateApprovals(s0, rows[..i], defaultApproval, siteHash)
        invariant added + |s0.history| == |history|
        invariant typeTags == old(typeTags) && verifications == old(verifications)
        invariant commissions == old(commissions) && suspensions == old(suspensions)
      {
        MigrateLoopStep(s0, rows, i, approvals, history, defaultApproval, siteHash);
        var row := rows[i];
        var approval := if row.siteId in approvals then approvals[row.siteId] else defaultApproval(row.siteId);
        approvals := approvals[row.siteId := approval];
        if !TruthyStr(approval.dhash) {
          approvals := approvals[row.siteId := Migrated(row, siteHash(row.siteId))];
          history := history + [row.siteId];
          added := added + 1;
        }
        i := i + 1;
      }
      assert rows[..|rows|] == rows;
    }

    /**
     * "Generate provider commissions" for the organisations the query
     * selects; `suspended` counts the commissions that are not CURRENT.
     */
    method GenerateCommissions(orgIds: seq<int>, defaultOf: int -> Verification, today: int) returns (generated: nat, suspended: nat)
      modifies this
      ensures commissions == old(commissions) + Commissions(orgIds, verifications, defaultOf, today)
      ensures suspensions == old(suspensions) + Collect(orgIds, NotCurrent(verifications, defaultOf, today), SuspensionOf(verifications, defaultOf, today))
      ensures generated == |orgIds| && suspended == CountIf(orgIds, NotCurrent(verifications, defaultOf, today))
      ensures typeTags == old(typeTags) && verifications == old(verifications)
      ensures approvals == old(approvals) && history == old(history)
    {
      var vs := verifications;
      generated, suspended := 0, 0;
      var i := 0;
      while i < |orgIds|
        invariant 0 <= i <= |orgIds|
        invariant commissions == old(commissions) + Commissions(orgIds[..i], vs, defaultOf, today)
        invariant suspensions == old(suspensions) + Collect(orgIds[..i], NotCurrent(vs, defaultOf, today), SuspensionOf(vs, defaultOf, today))
        invariant generated == i && suspended == |suspensions| - |old(suspensions)|
        invariant typeTags == old(typeTags) && verifications == vs
        invariant approvals == old(approvals) && history == old(history)
      {
        var org := orgIds[i];
        var accepted := if org in vs then vs[org].accepted else defaultOf(org).accepted;
        var status := StatusOf(today, accepted);
        var reason := if status == Suspended then Some("N/V") else None;
        CommissionStep(vs, defaultOf, today, org, accepted);
        CommissionAppend(old(commissions), commissions, orgIds, i, vs, defaultOf, today,
                         Commission(org, today, CommissionEnd, status, Current, today, reason));
        CollectAppendStep(old(suspensions), suspensions, orgIds, i, NotCurrent(vs, defaultOf, today), SuspensionOf(vs, defaultOf, today));
        commissions := commissions + [Commission(org, today, CommissionEnd, status, Current, today, reason)];
        generated := generated + 1;
        if status != Current {
          suspensions := suspensions + [Suspension(org, if status == Suspended then "SUSPENDED" else "COMMISSION")];
          suspended := suspended + 1;
        }
        i := i + 1;
      }
      assert orgIds[..|orgIds|] == orgIds;
    }

    /**
     * The whole script. `typesOk`, `cmsOk` and `rolesOk` are the outcomes
     * of the three imports; a failed one skips the later steps, and any
     * failure rolls every change back.
     */
    method Run(typesOk: bool, typeRows: seq<TypeRow>, cmsOk: bool,
               orgs: seq<OrgRow>, defaultOf: int -> Verification, hashOf: int -> HashUpdate,
               approvalRows: seq<ApprovalRow>, defaultApproval: int -> Approval, siteHash: int -> Option<string>,
               commissionOrgs: seq<int>, today: int, rolesOk: bool) returns (failed: bool)
      modifies this
      ensures failed <==> !(typesOk && cmsOk && rolesOk)
      ensures failed ==> && typeTags == old(typeTags) && verifications == old(verifications) && approvals == old(approvals)
                         && history == old(history) && commissions == old(commissions) && suspensions == old(suspensions)
      ensures !failed ==>
                var vs := GenerateVerifications(old(verifications), NeedsVerification(orgs, old(verifications)), defaultOf, hashOf);
                && typeTags == old(typeTags) + TypeTagsAdded(Filter(typeRows, LacksRequirement))
                && verifications == vs
                && ApprovalState(approvals, history) ==
                   MigrateApprovals(ApprovalState(old(approvals), old(history)), approvalRows, defaultApproval, siteHash)
                && commissions == old(commissions) + Commissions(commissionOrgs, vs, defaultOf, today)
                && suspensions == old(suspensions) + Collect(commissionOrgs, NotCurrent(vs, defaultOf, today), SuspensionOf(vs, defaultOf, today))
    {
      var typeTags0, verifications0, approvals0 := typeTags, verifications, approvals;
      var history0, commissions0, suspensions0 := history, commissions, suspensions;
      failed := !typesOk;
      if !failed {
        var _ := AddTypeTags(typeRows);
        failed := !cmsOk;
      }
      if !failed {
        var _ := GenerateProviderVerifications(orgs, defaultOf, hashOf);
        var _ := MigrateFacilityApprovals(approvalRows, defaultApproval, siteHash);
        var _, _ := GenerateCommissions(commissionOrgs, defaultOf, today);
        failed := !rolesOk;
      }
      if failed {
        typeTags, verifications, approvals := typeTags0, verifications0, approvals0;
        history, commissions, suspensions := history0, commissions0, suspensions0;
      }
    }
  }
}
