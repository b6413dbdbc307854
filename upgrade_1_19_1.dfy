/**
 * RLPPTM upgrade 1.19.1 => 1.19.2: the requirement tags of organisation
 * types move into org_requirements rows, the MPAV requirement is set for
 * test station types, verification statuses are recomputed, and the MPAV
 * check of every provider is set from its facility approvals.
 */
module Upgrade1191 {
  import opened Wrappers

  // ---------------------------------------------------------------------------
  // Requirements

  /** An org_organisation_type_tag row returned by the tag query. */
  datatype TagRow = TagRow(typeId: int, tag: string, value: Option<string>)

  /** The requirement flags collected for one type (None where no tag set it). */
  datatype Flags = Flags(commercial: Option<bool>, verifreq: Option<bool>, minforeq: Option<bool>)

  /** An entry of the `types` dictionary. */
  datatype TypeFlags = TypeFlags(typeId: int, flags: Flags)

  /** An org_requirements row. */
  datatype Requirement = Requirement(typeId: int, commercial: Option<bool>, natpersn: Option<bool>, verifreq: Option<bool>,
                                     minforeq: Option<bool>, mpavreq: Option<bool>, modifiedBy: Option<int>, deleted: bool)

  /** A tag sets the flag it maps to (Commercial, VERIFREQ, MINFOREQ) to `value == "Y"`; any other tag sets nothing. */
  function SetFlag(f: Flags, tag: string, value: Option<string>): Flags {
    var y := value == Some("Y");
    if tag == "Commercial" then f.(commercial := Some(y))
    else if tag == "VERIFREQ" then f.(verifreq := Some(y))
    else if tag == "MINFOREQ" then f.(minforeq := Some(y))
    else f
  }

  function EntryOf(types: seq<TypeFlags>, typeId: int): Option<nat> {
    FirstIndex(types, (e: TypeFlags) => e.typeId == typeId)
  }

  /** The `types` dictionary after the loop over `rows`, in insertion order. */
  function Aggregate(rows: seq<TagRow>): seq<TypeFlags> {
    if rows == [] then [] else AddRow(Aggregate(rows[..|rows| - 1]), rows[|rows| - 1])
  }

  /** One pass of the loop: update the type's entry, or append a new one. */
  function AddRow(types: seq<TypeFlags>, row: TagRow): seq<TypeFlags> {
    match EntryOf(types, row.typeId)
    case Some(k) => types[k := TypeFlags(row.typeId, SetFlag(types[k].flags, row.tag, row.value))]
    case None => types + [TypeFlags(row.typeId, SetFlag(Flags(None, None, None), row.tag, row.value))]
  }

  /** The flag the last tag row `tag` of type `typeId` sets, if any: the reference for each entry's flags. */
  function LastFlag(rows: seq<TagRow>, typeId: int, tag: string): (r: Option<bool>)
    ensures r.Some? ==> exists row :: row in rows && row.typeId == typeId && row.tag == tag && r == Some(row.value == Some("Y"))
    ensures (forall row :: row in rows ==> row.typeId != typeId) ==> r.None?
  {
    if rows == [] then None
    else
      var row := rows[|rows| - 1];
      if row.typeId == typeId && row.tag == tag then Some(row.value == Some("Y"))
      else
        var r := LastFlag(rows[..|rows| - 1], typeId, tag);
        assert forall x :: x in rows[..|rows| - 1] ==> x in rows;
        r
  }

  /** The flags the tag rows set for `typeId`. */
  function FlagsOf(rows: seq<TagRow>, typeId: int): Flags {
    Flags(LastFlag(rows, typeId, "Commercial"), LastFlag(rows, typeId, "VERIFREQ"), LastFlag(rows, typeId, "MINFOREQ"))
  }

  function TypeIds(types: seq<TypeFlags>): set<int> {
    set e | e in types :: e.typeId
  }

  function RowTypeIds(rows: seq<TagRow>): set<int> {
    set row | row in rows :: row.typeId
  }

  /** The dictionary has one entry per type, and a type has an entry iff some tag row is of that type. */
  lemma {:induction false} AggregateKeys(rows: seq<TagRow>)
    ensures var types := Aggregate(rows);
            && (forall i, j :: 0 <= i < j < |types| ==> types[i].typeId != types[j].typeId)
            && TypeIds(types) == RowTypeIds(rows)
  {
    if rows != [] {
      var n := |rows| - 1;
      var init, row := rows[..n], rows[n];
      assert rows == init + [row];
      assert RowTypeIds(rows) == RowTypeIds(init) + {row.typeId};
      AggregateKeys(init);
      AddRowKeys(Aggregate(init), row);
    }
  }

  /** A pass keeps the entries distinct and adds the row's type to the keys. */
  lemma AddRowKeys(types0: seq<TypeFlags>, row: TagRow)
    requires forall i, j :: 0 <= i < j < |types0| ==> types0[i].typeId != types0[j].typeId
    ensures var types := AddRow(types0, row);
            && (forall i, j :: 0 <= i < j < |types| ==> types[i].typeId != types[j].typeId)
            && TypeIds(types) == TypeIds(types0) + {row.typeId}
  {
    var types := AddRow(types0, row);
    var k := EntryOf(types0, row.typeId);
    if k.Some? {
      assert |types| == |types0| && forall i :: 0 <= i < |types0| ==> types[i].typeId == types0[i].typeId;
      assert TypeIds(types) == TypeIds(types0) by {
        forall t | t in TypeIds(types) ensures t in TypeIds(types0) {
          var i :| 0 <= i < |types| && types[i].typeId == t;
          assert types0[i] in types0;
        }
        forall t | t in TypeIds(types0) ensures t in TypeIds(types) {
          var i :| 0 <= i < |types0| && types0[i].typeId == t;
          assert types[i] in types;
        }
      }
      assert types0[k.value] in types0;
    } else {
      var e := TypeFlags(row.typeId, SetFlag(Flags(None, None, None), row.tag, row.value));
      assert types == types0 + [e];
      assert TypeIds(types) == TypeIds(types0) + {row.typeId};
      forall i | 0 <= i < |types0| ensures types0[i].typeId != row.typeId {
        assert !(types0[i].typeId == row.typeId);
      }
    }
  }

  /** The flags of the rows are those of all rows but the last, updated by the last row for its own type. */
  lemma FlagsOfSnoc(rows: seq<TagRow>, typeId: int)
    requires rows != []
    ensures var row := rows[|rows| - 1];
            FlagsOf(rows, typeId) == if typeId == row.typeId then SetFlag(FlagsOf(rows[..|rows| - 1], typeId), row.tag, row.value)
                                     else FlagsOf(rows[..|rows| - 1], typeId)
  {
  }

  /**
   * Each entry's flags are those its last Commercial, VERIFREQ and
   * MINFOREQ rows set, each being `value == "Y"`.
   */
  lemma {:induction false} AggregateEffect(rows: seq<TagRow>)
    ensures var types := Aggregate(rows);
            forall i :: 0 <= i < |types| ==> types[i].flags == FlagsOf(rows, types[i].typeId)
  {
    if rows != [] {
      var n := |rows| - 1;
      var init, row := rows[..n], rows[n];
      AggregateEffect(init);
      AggregateKeys(init);
      var types0 := Aggregate(init);
      var types := Aggregate(rows);
      var k := EntryOf(types0, row.typeId);
      if k.Some? {
        forall i | 0 <= i < |types|
          ensures types[i].flags == FlagsOf(rows, types[i].typeId)
        {
          FlagsOfSnoc(rows, types[i].typeId);
          if i != k.value {
            assert types0[i].typeId != types0[k.value].typeId;
          }
        }
      } else {
        forall x | x in init
          ensures x.typeId != row.typeId
        {
          assert x.typeId in RowTypeIds(init);
          var e :| e in types0 && e.typeId == x.typeId;
          var i :| 0 <= i < |types0| && types0[i] == e;
        }
        assert FlagsOf(init, row.typeId) == Flags(None, None, None);
        forall i | 0 <= i < |types|
          ensures types[i].flags == FlagsOf(rows, types[i].typeId)
        {
          FlagsOfSnoc(rows, types[i].typeId);
          if i < |types0| {
            assert types[i] == types0[i];
          }
        }
      }
    }
  }

  predicate AnyTrue(f: Flags) {
    f.commercial == Some(true) || f.verifreq == Some(true) || f.minforeq == Some(true)
  }

  /** The lookup of a live requirements row of the type. */
  predicate HasRequirement(reqs: seq<Requirement>, typeId: int) {
    exists r :: r in reqs && r.typeId == typeId && !r.deleted
  }

  /** `rtable.insert(**flags)`: the flags that were set, the others left empty. */
  function NewRequirement(e: TypeFlags, user: Option<int>): Requirement {
    Requirement(e.typeId, e.flags.commercial, None, e.flags.verifreq, e.flags.minforeq, None, user, false)
  }

  /** The requirements table after the insert loop over the dictionary. */
  function InsertRequirements(reqs: seq<Requirement>, types: seq<TypeFlags>, user: Option<int>): seq<Requirement> {
    if types == [] then reqs
    else
      var r := InsertRequirements(reqs, types[..|types| - 1], user);
      var e := types[|types| - 1];
      if AnyTrue(e.flags) && !HasRequirement(r, e.typeId) then r + [NewRequirement(e, user)] else r
  }

  /** The entries that get a row: some flag is true and the type had no live row before the loop. */
  function Migrates(reqs: seq<Requirement>): TypeFlags -> bool {
    (e: TypeFlags) => AnyTrue(e.flags) && !HasRequirement(reqs, e.typeId)
  }

  /**
   * With one entry per type, the loop keeps every existing row and inserts
   * one row for each type with a true flag and no live row, in dictionary
   * order, and no other.
   */
  lemma {:induction false} InsertRequirementsEffect(reqs: seq<Requirement>, types: seq<TypeFlags>, user: Option<int>)
    requires forall i, j :: 0 <= i < j < |types| ==> types[i].typeId != types[j].typeId
    ensures InsertRequirements(reqs, types, user) == reqs + Collect(types, Migrates(reqs), (e: TypeFlags) => NewRequirement(e, user))
  {
    if types != [] {
      var n := |types| - 1;
      var init, e := types[..n], types[n];
      assert types == init + [e];
      InsertRequirementsEffect(reqs, init, user);
      CollectSnoc(init, e, Migrates(reqs), (e: TypeFlags) => NewRequirement(e, user));
      var added := Collect(init, Migrates(reqs), (e: TypeFlags) => NewRequirement(e, user));
      CollectMembers(init, Migrates(reqs), (e: TypeFlags) => NewRequirement(e, user));
      forall x | x in added
        ensures x.typeId != e.typeId
      {
        var y :| y in init && Migrates(reqs)(y) && x == NewRequirement(y, user);
        var i :| 0 <= i < n && init[i] == y;
      }
      assert HasRequirement(reqs + added, e.typeId) == HasRequirement(reqs, e.typeId) by {
        if HasRequirement(reqs + added, e.typeId) {
          var r :| r in reqs + added && r.typeId == e.typeId && !r.deleted;
          assert r in reqs;
        }
      }
    }
  }

  /** "Fix missing tags": NULL `natpersn` and `mpavreq` become False, on every row; nothing else changes. */
  function FixNulls(reqs: seq<Requirement>): (r: seq<Requirement>)
    ensures |r| == |reqs|
    ensures forall i :: 0 <= i < |r| ==> r[i].natpersn.Some? && r[i].mpavreq.Some?
    ensures forall i :: 0 <= i < |r| ==>
              && (reqs[i].natpersn.Some? ==> r[i].natpersn == reqs[i].natpersn)
              && (reqs[i].natpersn.None? ==> r[i].natpersn == Some(false))
              && (reqs[i].mpavreq.Some? ==> r[i].mpavreq == reqs[i].mpavreq)
              && (reqs[i].mpavreq.None? ==> r[i].mpavreq == Some(false))
              && r[i] == reqs[i].(natpersn := r[i].natpersn, mpavreq := r[i].mpavreq)
  {
    seq(|reqs|, i requires 0 <= i < |reqs| =>
      reqs[i].(natpersn := if reqs[i].natpersn.None? then Some(false) else reqs[i].natpersn,
               mpavreq := if reqs[i].mpavreq.None? then Some(false) else reqs[i].mpavreq))
  }

  /** The rows the MPAV requirement is set on: never modified by a user, live, of a test station type. */
  function MpavSubset(isTestStationType: int -> bool): Requirement -> bool {
    (r: Requirement) => r.modifiedBy.None? && !r.deleted && isTestStationType(r.typeId)
  }

  /** "Establish MPAV requirement": exactly the subset gets `mpavreq = True`. */
  function RequireMpav(reqs: seq<Requirement>, isTestStationType: int -> bool): (r: seq<Requirement>)
    ensures |r| == |reqs|
    ensures forall i :: 0 <= i < |r| ==>
              && (MpavSubset(isTestStationType)(reqs[i]) ==> r[i] == reqs[i].(mpavreq := Some(true)))
              && (!MpavSubset(isTestStationType)(reqs[i]) ==> r[i] == reqs[i])
  {
    seq(|reqs|, i requires 0 <= i < |reqs| =>
      if MpavSubset(isTestStationType)(reqs[i]) then reqs[i].(mpavreq := Some(true)) else reqs[i])
  }

  // ---------------------------------------------------------------------------
  // Verifications

  /** An org_verification row (the fields the script reads or writes). */
  datatype Verification = Verification(organisationId: int, mgrinfo: Option<string>, orgtype: Option<string>,
                                       mpav: Option<string>, status: Option<string>, deleted: bool)

  predicate Accepted(s: Option<string>) {
    s == Some("ACCEPT") || s == Some("VERIFIED")
  }

  /** The verification status of the manager info and type checks. */
  function VerificationStatus(mgrinfo: Option<string>, orgtype: Option<string>): (s: string)
    ensures s == "COMPLETE" <==> Accepted(mgrinfo) && Accepted(orgtype)
    ensures s == "REVIEW" <==> s != "COMPLETE" && (mgrinfo == Some("REVIEW") || orgtype == Some("REVIEW"))
    ensures s == "COMPLETE" || s == "REVIEW" || s == "REVISE"
  {
    if Accepted(mgrinfo) && Accepted(orgtype) then "COMPLETE"
    else if mgrinfo == Some("REVIEW") || orgtype == Some("REVIEW") then "REVIEW"
    else "REVISE"
  }

  /** The `update` dictionary of one verification (None where it has no entry). */
  datatype VerificationUpdate = VerificationUpdate(mgrinfo: Option<string>, orgtype: Option<string>, status: Option<string>)

  /**
   * The update of one verification; `minforeq` and `checked` stand for
   * `provider.minforeq` and `provider.check_mgrinfo()`. The status is
   * computed from the local `mgrinfo` and `orgtype`: a REVISE manager info
   * written as ACCEPT stays REVISE there, and a N/V type check written as
   * REVIEW stays N/V (the assignment goes to `org_type`).
   */
  function UpdateOf(v: Verification, minforeq: bool, checked: string): VerificationUpdate {
    var (mgrinfo, mgrinfoEntry) :=
      if v.mgrinfo == Some("COMPLETE") then (Some("VERIFIED"), Some("VERIFIED"))
      else if v.mgrinfo == Some("REVISE") then
        (if minforeq then (if v.mgrinfo != Some(checked) then (Some(checked), Some(checked)) else (v.mgrinfo, None))
         else (v.mgrinfo, Some("ACCEPT")))
      else (v.mgrinfo, None);
    var orgtypeEntry := if v.orgtype == Some("N/V") then Some("REVIEW") else None;
    var status := VerificationStatus(mgrinfo, v.orgtype);
    VerificationUpdate(mgrinfoEntry, orgtypeEntry, if v.status != Some(status) then Some(status) else None)
  }

  predicate IsEmpty(u: VerificationUpdate) {
    u.mgrinfo.None? && u.orgtype.None? && u.status.None?
  }

  /** `row.update_record(**update)`; the meta fields are kept. */
  function Apply(v: Verification, u: VerificationUpdate): Verification {
    v.(mgrinfo := if u.mgrinfo.Some? then u.mgrinfo else v.mgrinfo,
       orgtype := if u.orgtype.Some? then u.orgtype else v.orgtype,
       status := if u.status.Some? then u.status else v.status)
  }

  /**
   * One pass of the update loop: the row is replaced by its updated form
   * when it is written, and left as it is otherwise.
   */
  lemma UpdateVerificationsStep(vs: seq<Verification>, i: nat, minforeq: int -> bool, checkMgrinfo: int -> string)
    requires i < |vs|
    ensures var r := UpdateVerifications(vs, minforeq, checkMgrinfo);
            var v := vs[i];
            var u := UpdateOf(v, minforeq(v.organisationId), checkMgrinfo(v.organisationId));
            && vs[i..][0] == v
            && (Written(minforeq, checkMgrinfo)(v) ==> r[..i + 1] + vs[i + 1..] == (r[..i] + vs[i..])[i := Apply(v, u)])
            && (!Written(minforeq, checkMgrinfo)(v) ==> r[..i + 1] + vs[i + 1..] == r[..i] + vs[i..])
  {
    var r := UpdateVerifications(vs, minforeq, checkMgrinfo);
    var v := vs[i];
    var u := UpdateOf(v, minforeq(v.organisationId), checkMgrinfo(v.organisationId));
    if Written(minforeq, checkMgrinfo)(v) {
      assert r[..i + 1] + vs[i + 1..] == (r[..i] + vs[i..])[i := Apply(v, u)];
    } else {
      assert r[i] == v;
      assert r[..i + 1] + vs[i + 1..] == r[..i] + vs[i..];
    }
  }

  /**
   * COMPLETE manager info becomes VERIFIED; REVISE becomes the checked
   * status when the minimum manager information is required and ACCEPT
   * otherwise; a N/V type check becomes REVIEW; the status is the status
   * of the local values; no other field changes; and a record is written
   * iff it changes.
   */
  lemma VerificationUpdateEffect(v: Verification, minforeq: bool, checked: string)
    ensures var u := UpdateOf(v, minforeq, checked);
            var r := Apply(v, u);
            && (v.mgrinfo == Some("COMPLETE") ==> r.mgrinfo == Some("VERIFIED"))
            && (v.mgrinfo == Some("REVISE") && minforeq ==> r.mgrinfo == Some(checked))
            && (v.mgrinfo == Some("REVISE") && !minforeq ==> r.mgrinfo == Some("ACCEPT"))
            && (v.mgrinfo != Some("COMPLETE") && v.mgrinfo != Some("REVISE") ==> r.mgrinfo == v.mgrinfo)
            && r.orgtype == (if v.orgtype == Some("N/V") then Some("REVIEW") else v.orgtype)
            && r.status == Some(VerificationStatus(if v.mgrinfo == Some("REVISE") && !minforeq then v.mgrinfo else r.mgrinfo, v.orgtype))
            && r == v.(mgrinfo := r.mgrinfo, orgtype := r.orgtype, status := r.status)
            && (!IsEmpty(u) <==> r != v)
  {
  }

  /** The stored status need not be the status of the stored values. */
  lemma StatusFromLocalValues()
    ensures var v := Verification(1, Some("ACCEPT"), Some("N/V"), None, Some("REVISE"), false);
            var r := Apply(v, UpdateOf(v, false, "ACCEPT"));
            && r.orgtype == Some("REVIEW") && r.status == Some("REVISE")
            && VerificationStatus(r.mgrinfo, r.orgtype) == "REVIEW"
  {
  }

  /** The verification table after the update loop; deleted rows are not selected. */
  function UpdateVerifications(vs: seq<Verification>, minforeq: int -> bool, checkMgrinfo: int -> string): (r: seq<Verification>)
    ensures |r| == |vs|
  {
    seq(|vs|, i requires 0 <= i < |vs| =>
      if vs[i].deleted then vs[i] else Apply(vs[i], UpdateOf(vs[i], minforeq(vs[i].organisationId), checkMgrinfo(vs[i].organisationId))))
  }

  /** The rows the loop writes. */
  function Written(minforeq: int -> bool, checkMgrinfo: int -> string): Verification -> bool {
    (v: Verification) => !v.deleted && !IsEmpty(UpdateOf(v, minforeq(v.organisationId), checkMgrinfo(v.organisationId)))
  }

  // ---------------------------------------------------------------------------
  // MPAV status

  /** A live facility with the MPAV value of its approval (None without one). */
  datatype MpavRow = MpavRow(organisationId: int, approvalMpav: Option<string>)

  /**
   * The MPAV update of a provider's verification (None: no update). With
   * the MPAV requirement a VERIFIED check is left alone, an APPROVED
   * approval makes it VERIFIED, and otherwise it is REVISE unless under
   * REVIEW; without the requirement it is ACCEPT.
   */
  function MpavUpdate(mpavreq: bool, current: Option<string>, approvalMpav: Option<string>): (u: Option<string>)
    ensures mpavreq && current == Some("VERIFIED") ==> u.None?
    ensures mpavreq && current != Some("VERIFIED") && approvalMpav == Some("APPROVED") ==> u == Some("VERIFIED")
    ensures mpavreq && current != Some("VERIFIED") && approvalMpav != Some("APPROVED") ==>
              (u == Some("REVISE") <==> current != Some("REVIEW")) && (u.None? <==> current == Some("REVIEW"))
    ensures !mpavreq ==> (u == Some("ACCEPT") <==> current != Some("ACCEPT")) && (u.None? <==> current == Some("ACCEPT"))
  {
    if mpavreq then
      if current == Some("VERIFIED") then None
      else if approvalMpav == Some("APPROVED") then Some("VERIFIED")
      else if current != Some("REVIEW") then Some("REVISE")
      else None
    else if current != Some("ACCEPT") then Some("ACCEPT")
    else None
  }

  /** The verification table and the `modified` set. */
  datatype MpavState = MpavState(vs: seq<Verification>, modified: set<int>)

  function IsProviderOf(org: int): Verification -> bool {
    (v: Verification) => v.organisationId == org && !v.deleted
  }

  /**
   * `TestProvider(org).verification`: the table, with a default record
   * added when the organisation has none, and the index of its record.
   */
  function Provide(vs: seq<Verification>, org: int, defaultOf: int -> Verification): (r: (seq<Verification>, nat))
    ensures r.1 < |r.0| && r.0[r.1].organisationId == org && !r.0[r.1].deleted
    ensures |vs| <= |r.0| && r.0[..|vs|] == vs
    ensures r.1 < |vs| ==> r.0 == vs
  {
    match FirstIndex(vs, IsProviderOf(org))
    case Some(k) => (vs, k)
    case None => (vs + [defaultOf(org).(organisationId := org, deleted := false)], |vs|)
  }

  function MpavStep(s: MpavState, row: MpavRow, mpavreq: int -> bool, defaultOf: int -> Verification): MpavState {
    var (vs, k) := Provide(s.vs, row.organisationId, defaultOf);
    match MpavUpdate(mpavreq(row.organisationId), vs[k].mpav, row.approvalMpav)
    case None => MpavState(vs, s.modified)
    case Some(x) => MpavState(vs[k := vs[k].(mpav := Some(x))], s.modified + {row.organisationId})
  }

  function SetMpav(s: MpavState, rows: seq<MpavRow>, mpavreq: int -> bool, defaultOf: int -> Verification): MpavState {
    if rows == [] then s else MpavStep(SetMpav(s, rows[..|rows| - 1], mpavreq, defaultOf), rows[|rows| - 1], mpavreq, defaultOf)
  }

  /**
   * One facility: only the MPAV check of its provider's verification
   * changes, to the value of the rule, and the provider is recorded as
   * modified iff the rule gives an update.
   */
  lemma MpavStepEffect(s: MpavState, row: MpavRow, mpavreq: int -> bool, defaultOf: int -> Verification)
    ensures var (vs, k) := Provide(s.vs, row.organisationId, defaultOf);
            var u := MpavUpdate(mpavreq(row.organisationId), vs[k].mpav, row.approvalMpav);
            var r := MpavStep(s, row, mpavreq, defaultOf);
            && |r.vs| == |vs| && r.vs[..|s.vs|] == (if k < |s.vs| then s.vs[k := r.vs[k]] else s.vs)
            && r.vs[k] == vs[k].(mpav := if u.Some? then u else vs[k].mpav)
            && r.modified == (if u.Some? then s.modified + {row.organisationId} else s.modified)
  {
    var (vs, k) := Provide(s.vs, row.organisationId, defaultOf);
    var r := MpavStep(s, row, mpavreq, defaultOf);
    if k < |s.vs| {
      assert vs == s.vs;
    } else {
      assert r.vs[..|s.vs|] == vs[..|s.vs|];
    }
  }

  /** One facility changes only the verification of its own organisation, and then records that organisation. */
  lemma MpavStepChanges(t: MpavState, row: MpavRow, mpavreq: int -> bool, defaultOf: int -> Verification)
    ensures var r := MpavStep(t, row, mpavreq, defaultOf);
            && |t.vs| <= |r.vs|
            && (r.modified == t.modified || r.modified == t.modified + {row.organisationId})
            && forall j :: 0 <= j < |t.vs| && r.vs[j] != t.vs[j] ==>
                 t.vs[j].organisationId == row.organisationId && row.organisationId in r.modified
  {
    MpavStepEffect(t, row, mpavreq, defaultOf);
    var r := MpavStep(t, row, mpavreq, defaultOf);
    forall j | 0 <= j < |t.vs| && r.vs[j] != t.vs[j]
      ensures t.vs[j].organisationId == row.organisationId && row.organisationId in r.modified
    {
      assert r.vs[j] == r.vs[..|t.vs|][j];
    }
  }

  /** Over the whole loop the `modified` set only grows, by organisations of the rows. */
  lemma {:induction false} SetMpavGrows(s: MpavState, rows: seq<MpavRow>, mpavreq: int -> bool, defaultOf: int -> Verification)
    ensures var r := SetMpav(s, rows, mpavreq, defaultOf);
            && |s.vs| <= |r.vs|
            && s.modified <= r.modified
            && forall org :: org in r.modified - s.modified ==> exists row :: row in rows && row.organisationId == org
  {
    if rows != [] {
      var n := |rows| - 1;
      assert forall x :: x in rows[..n] ==> x in rows;
      SetMpavGrows(s, rows[..n], mpavreq, defaultOf);
      var t := SetMpav(s, rows[..n], mpavreq, defaultOf);
      var r := SetMpav(s, rows, mpavreq, defaultOf);
      MpavStepChanges(t, rows[n], mpavreq, defaultOf);
      forall org | org in r.modified - s.modified
        ensures exists row :: row in rows && row.organisationId == org
      {
        if org in t.modified {
          assert org in t.modified - s.modified;
          var row :| row in rows[..n] && row.organisationId == org;
          assert row in rows;
        } else {
          assert rows[n] in rows;
        }
      }
    }
  }

  /** Every verification that existed before the loop and changed belongs to an organisation in the `modified` set. */
  lemma {:induction false} SetMpavModified(s: MpavState, rows: seq<MpavRow>, mpavreq: int -> bool, defaultOf: int -> Verification)
    ensures var r := SetMpav(s, rows, mpavreq, defaultOf);
            forall j :: 0 <= j < |s.vs| && j < |r.vs| && r.vs[j] != s.vs[j] ==> s.vs[j].organisationId in r.modified
  {
    if rows != [] {
      var n := |rows| - 1;
      var init, row := rows[..n], rows[n];
      SetMpavModified(s, init, mpavreq, defaultOf);
      SetMpavGrows(s, init, mpavreq, defaultOf);
      var t := SetMpav(s, init, mpavreq, defaultOf);
      MpavStepChanges(t, row, mpavreq, defaultOf);
    }
  }

  // ---------------------------------------------------------------------------
  // The script

  /** The tables the script touches; `verificationUpdates` logs the `update_verification` calls. */
  class RequirementsUpgrade {
    var requirements: seq<Requirement>
    var verifications: seq<Verification>
    var verificationUpdates: seq<int>

    constructor (requirements: seq<Requirement>, verifications: seq<Verification>)
      ensures this.requirements == requirements && this.verifications == verifications && verificationUpdates == []
    {
      this.requirements := requirements;
      this.verifications := verifications;
      verificationUpdates := [];
    }

    /** The loop building the `types` dictionary. */
    static method CollectFlags(rows: seq<TagRow>) returns (types: seq<TypeFlags>)
      ensures types == Aggregate(rows)
    {
      types := [];
      var i := 0;
      while i < |rows|
        invariant 0 <= i <= |rows|
        invariant types == Aggregate(rows[..i])
      {
        assert rows[..i + 1][..i] == rows[..i];
        var row := rows[i];
        var k := EntryOf(types, row.typeId);
        if k.Some? {
          types := types[k.value := TypeFlags(row.typeId, SetFlag(types[k.value].flags, row.tag, row.value))];
        } else {
          types := types + [TypeFlags(row.typeId, SetFlag(Flags(None, None, None), row.tag, row.value))];
        }
        i := i + 1;
      }
      assert rows[..|rows|] == rows;
    }

    /** The insert loop over the dictionary; `added` counts the rows inserted. */
    method MigrateRequirements(types: seq<TypeFlags>, user: Option<int>) returns (added: nat)
      modifies this
      ensures requirements == InsertRequirements(old(requirements), types, user)
      ensures added == |requirements| - |old(requirements)|
      ensures verifications == old(verifications) && verificationUpdates == old(verificationUpdates)
    {
      ghost var reqs0 := requirements;
      added := 0;
      var i := 0;
      while i < |types|
        invariant 0 <= i <= |types|
        invariant requirements == InsertRequirements(reqs0, types[..i], user)
        invariant added + |reqs0| == |requirements|
        invariant verifications == old(verifications) && verificationUpdates == old(verificationUpdates)
      {
        assert types[..i + 1][..i] == types[..i];
        var e := types[i];
        if AnyTrue(e.flags) {
          var found := false;
          var j := 0;
          while j < |requirements| && !found
            invariant 0 <= j <= |requirements|
            invariant found <==> exists r :: r in requirements[..j] && r.typeId == e.typeId && !r.deleted
          {
            assert requirements[..j + 1] == requirements[..j] + [requirements[j]];
            found := requirements[j].typeId == e.typeId && !requirements[j].deleted;
            j := j + 1;
          }
          assert found <==> HasRequirement(requirements, e.typeId) by {
            if !found {
              assert requirements[..j] == requirements;
            } else {
              var r :| r in requirements[..j] && r.typeId == e.typeId && !r.deleted;
              assert r in requirements;
            }
          }
          if !found {
            requirements := requirements + [NewRequirement(e, user)];
            added := added + 1;
          }
        }
        i := i + 1;
      }
      assert types[..|types|] == types;
    }

    /** "Fix missing tags" and "Establish MPAV requirement" (two bulk updates); `updated` counts the second. */
    method SetRequirementFlags(isTestStationType: int -> bool) returns (updated: nat)
      modifies this
      ensures requirements == RequireMpav(FixNulls(old(requirements)), isTestStationType)
      ensures updated == CountIf(FixNulls(old(requirements)), MpavSubset(isTestStationType))
      ensures verifications == old(verifications) && verificationUpdates == old(verificationUpdates)
    {
      requirements := FixNulls(requirements);
      updated := CountIf(requirements, MpavSubset(isTestStationType));
      requirements := RequireMpav(requirements, isTestStationType);
    }

    /** "Update organisation verification status"; `updated` counts the rows written. */
    method UpdateVerificationStatus(minforeq: int -> bool, checkMgrinfo: int -> string) returns (updated: nat)
      modifies this
      ensures verifications == UpdateVerifications(old(verifications), minforeq, checkMgrinfo)
      ensures updated == CountIf(old(verifications), Written(minforeq, checkMgrinfo))
      ensures requirements == old(requirements) && verificationUpdates == old(verificationUpdates)
    {
      ghost var vs0 := verifications;
      updated := 0;
      var i := 0;
      while i < |verifications|
        invariant 0 <= i <= |verifications| == |vs0|
        invariant verifications == UpdateVerifications(vs0, minforeq, checkMgrinfo)[..i] + vs0[i..]
        invariant updated == CountIf(vs0[..i], Written(minforeq, checkMgrinfo))
        invariant requirements == old(requirements) && verificationUpdates == old(verificationUpdates)
      {
        CountIfPrefixStep(vs0, i, Written(minforeq, checkMgrinfo));
        UpdateVerificationsStep(vs0, i, minforeq, checkMgrinfo);
        var row := verifications[i];
        if !row.deleted {
          var update := UpdateOf(row, minforeq(row.organisationId), checkMgrinfo(row.organisationId));
          if !IsEmpty(update) {
            verifications := verifications[i := Apply(row, update)];
            updated := updated + 1;
          }
        }
        i := i + 1;
      }
      assert vs0[..|vs0|] == vs0;
      assert UpdateVerifications(vs0, minforeq, checkMgrinfo)[..|vs0|] == UpdateVerifications(vs0, minforeq, checkMgrinfo);
    }

    /** "Set MPAV status": the loop over the facilities; returns the `modified` set. */
    method SetMpavStatus(rows: seq<MpavRow>, mpavreq: int -> bool, defaultOf: int -> Verification) returns (modified: set<int>)
      modifies this
      ensures MpavState(verifications, modified) == SetMpav(MpavState(old(verifications), {}), rows, mpavreq, defaultOf)
      ensures requirements == old(requirements) && verificationUpdates == old(verificationUpdates)
    {
      ghost var s0 := MpavState(verifications, {});
      modified := {};
      var i := 0;
      while i < |rows|
        invariant 0 <= i <= |rows|
        invariant MpavState(verifications, modified) == SetMpav(s0, rows[..i], mpavreq, defaultOf)
        invariant requirements == old(requirements) && verificationUpdates == old(verificationUpdates)
      {
        assert rows[..i + 1][..i] == rows[..i];
        var row := rows[i];
        var (vs, k) := Provide(verifications, row.organisationId, defaultOf);
        verifications := vs;
        var update := MpavUpdate(mpavreq(row.organisationId), verifications[k].mpav, row.approvalMpav);
        if update.Some? {
          verifications := verifications[k := verifications[k].(mpav := update)];
          modified := modified + {row.organisationId};
        }
        i := i + 1;
      }
      assert rows[..|rows|] == rows;
    }

    /** One `update_verification` call for each modified organisation, in some order. */
    method UpdateModified(modified: set<int>)
      modifies this
      ensures |verificationUpdates| == |old(verificationUpdates)| + |modified|
      ensures verificationUpdates[..|old(verificationUpdates)|] == old(verificationUpdates)
      ensures var calls := verificationUpdates[|old(verificationUpdates)|..];
              NoRepeats(calls) && forall org :: org in calls <==> org in modified
      ensures requirements == old(requirements) && verifications == old(verifications)
    {
      ghost var calls0 := verificationUpdates;
      var rest := modified;
      ghost var done: seq<int> := [];
      while rest != {}
        invariant verificationUpdates == calls0 + done
        invariant forall org :: org in done <==> org in modified && org !in rest
        invariant rest <= modified
        invariant NoRepeats(done)
        invariant |done| + |rest| == |modified|
        invariant requirements == old(requirements) && verifications == old(verifications)
        decreases |rest|
      {
        assert exists x :: x in rest by { NonEmpty(rest); }
        var org :| org in rest;
        verificationUpdates := verificationUpdates + [org];
        done := done + [org];
        rest := rest - {org};
      }
      assert verificationUpdates[|calls0|..] == done;
    }

    /** The whole script; `rolesOk` is the outcome of the role import, whose failure rolls everything back. */
    method Run(tagRows: seq<TagRow>, user: Option<int>, isTestStationType: int -> bool,
               minforeq: int -> bool, checkMgrinfo: int -> string,
               facilityRows: seq<MpavRow>, mpavreq: int -> bool, defaultOf: int -> Verification,
               rolesOk: bool) returns (failed: bool)
      modifies this
      ensures failed <==> !rolesOk
      ensures failed ==> requirements == old(requirements) && verifications == old(verifications)
                         && verificationUpdates == old(verificationUpdates)
      ensures !failed ==>
                var s := SetMpav(MpavState(UpdateVerifications(old(verifications), minforeq, checkMgrinfo), {}),
                                 facilityRows, mpavreq, defaultOf);
                && requirements == RequireMpav(FixNulls(InsertRequirements(old(requirements), Aggregate(tagRows), user)), isTestStationType)
                && verifications == s.vs
                && |verificationUpdates| == |old(verificationUpdates)| + |s.modified|
                && forall org :: org in verificationUpdates[|old(verificationUpdates)|..] <==> org in s.modified
    {
      var requirements0, verifications0, verificationUpdates0 := requirements, verifications, verificationUpdates;
      var types := CollectFlags(tagRows);
      var _ := MigrateRequirements(types, user);
      var _ := SetRequirementFlags(isTestStationType);
      var _ := UpdateVerificationStatus(minforeq, checkMgrinfo);
      var modified := SetMpavStatus(facilityRows, mpavreq, defaultOf);
      UpdateModified(modified);
      failed := !rolesOk;
      if failed {
        requirements, verifications, verificationUpdates := requirements0, verifications0, verificationUpdates0;
      }
    }
  }
}
