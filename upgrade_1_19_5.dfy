/**
 * RLPPTM upgrade 1.19.5 => 1.20.0: the representative-information
 * requirement is copied from the manager-information one, staff members
 * with SCP/CRC/REGFORM tags get an org_representative record, the
 * verifications of their test station organisations are updated, and
 * documents without a date get their creation date. Dates and timestamps
 * are numbers in their own order.
 */
module Upgrade1195 {
  import opened Wrappers

  // ---------------------------------------------------------------------------
  // Requirements

  /** An org_requirements row (the two flags the script touches). */
  datatype Requirement = Requirement(typeId: int, minforeq: Option<bool>, rinforeq: Option<bool>, deleted: bool)

  /** "Update provider requirements": every row, deleted ones included, gets `rinforeq = minforeq`; nothing else changes. */
  function CopyRinforeq(reqs: seq<Requirement>): (r: seq<Requirement>)
    ensures |r| == |reqs|
    ensures forall i :: 0 <= i < |r| ==> r[i].rinforeq == reqs[i].minforeq && r[i] == reqs[i].(rinforeq := r[i].rinforeq)
  {
    seq(|reqs|, i requires 0 <= i < |reqs| => reqs[i].(rinforeq := reqs[i].minforeq))
  }

  // ---------------------------------------------------------------------------
  // Representatives

  /** A joined hrm_human_resource_tag row: its timestamps and value. */
  datatype TagInfo = TagInfo(createdOn: int, modifiedOn: int, value: Option<string>)

  /** A staff record with its SCP, CRC and REGFORM tags (three left joins; None where there is none). */
  datatype StaffRow = StaffRow(hrId: int, deleted: bool, modifiedOn: int, personId: int, organisationId: int,
                               orgContact: Option<bool>, status: Option<int>,
                               scp: Option<TagInfo>, crc: Option<TagInfo>, regform: Option<TagInfo>)

  /** The staff query: live staff records with at least one of the three tags. */
  predicate Selected(row: StaffRow) {
    !row.deleted && (row.scp.Some? || row.crc.Some? || row.regform.Some?)
  }

  /** The tags the record has, in the order CRC, SCP, REGFORM. */
  function Tags(row: StaffRow): (tags: seq<TagInfo>)
    ensures forall t :: t in tags <==> Some(t) == row.crc || Some(t) == row.scp || Some(t) == row.regform
  {
    (if row.crc.Some? then [row.crc.value] else [])
    + (if row.scp.Some? then [row.scp.value] else [])
    + (if row.regform.Some? then [row.regform.value] else [])
  }

  function MinOf(s: seq<int>): (m: int)
    requires s != []
    ensures m in s && forall x :: x in s ==> m <= x
  {
    if |s| == 1 then s[0]
    else
      var m := MinOf(s[1..]);
      assert forall x :: x in s ==> x == s[0] || x in s[1..];
      if s[0] <= m then s[0] else m
  }

  function MaxOf(s: seq<int>): (m: int)
    requires s != []
    ensures m in s && forall x :: x in s ==> x <= m
  {
    if |s| == 1 then s[0]
    else
      var m := MaxOf(s[1..]);
      assert forall x :: x in s ==> x == s[0] || x in s[1..];
      if m <= s[0] then s[0] else m
  }

  function CreatedDates(tags: seq<TagInfo>): (r: seq<int>)
    ensures |r| == |tags| && forall i :: 0 <= i < |r| ==> r[i] == tags[i].createdOn
  {
    seq(|tags|, i requires 0 <= i < |tags| => tags[i].createdOn)
  }

  function ModifiedDates(tags: seq<TagInfo>): (r: seq<int>)
    ensures |r| == |tags| && forall i :: 0 <= i < |r| ==> r[i] == tags[i].modifiedOn
  {
    seq(|tags|, i requires 0 <= i < |tags| => tags[i].modifiedOn)
  }

  /** The start date: the creation time of the oldest of the tags the record has. */
  function StartDate(row: StaffRow): (start: int)
    requires Selected(row)
    ensures exists t :: t in Tags(row) && start == t.createdOn
    ensures forall t :: t in Tags(row) ==> start <= t.createdOn
  {
    var tags := Tags(row);
    assert tags != [] by {
      assert row.crc.Some? ==> row.crc.value in tags;
      assert row.scp.Some? ==> row.scp.value in tags;
      assert row.regform.Some? ==> row.regform.value in tags;
    }
    var dates := CreatedDates(tags);
    var start := MinOf(dates);
    assert forall t :: t in tags ==> t.createdOn in dates by {
      forall t | t in tags ensures t.createdOn in dates {
        var i :| 0 <= i < |tags| && tags[i] == t;
        assert dates[i] == t.createdOn;
      }
    }
    var i :| 0 <= i < |dates| && dates[i] == start;
    assert tags[i] in tags;
    start
  }

  /**
   * The end date of an inactive representative: the latest of the tags'
   * modification times, the staff record's modification time and the
   * start date, so never before the start.
   */
  function EndDate(row: StaffRow, start: int): (end: int)
    ensures end >= start && end >= row.modifiedOn
    ensures forall t :: t in Tags(row) ==> t.modifiedOn <= end
    ensures end == start || end == row.modifiedOn || exists t :: t in Tags(row) && end == t.modifiedOn
  {
    var tags := Tags(row);
    var dates := ModifiedDates(tags) + [row.modifiedOn, start];
    var end := MaxOf(dates);
    assert forall t :: t in tags ==> t.modifiedOn <= end by {
      forall t | t in tags ensures t.modifiedOn <= end {
        var i :| 0 <= i < |tags| && tags[i] == t;
        assert dates[i] == t.modifiedOn && dates[i] in dates;
      }
    }
    assert dates[|tags|] == row.modifiedOn && dates[|tags|] in dates;
    assert dates[|tags| + 1] == start && dates[|tags| + 1] in dates;
    assert end == start || end == row.modifiedOn || exists t :: t in tags && end == t.modifiedOn by {
      var k :| 0 <= k < |dates| && dates[k] == end;
      if k < |tags| {
        assert tags[k] in tags;
      }
    }
    end
  }

  /** The values of the SCP, CRC and REGFORM fields of a representative: N/A, APPROVED, REJECTED. */
  datatype CheckValue = CheckNA | CheckApproved | CheckRejected

  /** The status of a representative: APPROVED or REVISE. */
  datatype Status = Approved | Revise

  /** The value of a tag in the representative: APPROVED, REJECT (as REJECTED) and N/A carry over; anything else, or no tag, is N/A. */
  function MappedValue(tag: Option<TagInfo>): (v: CheckValue)
    ensures v == CheckApproved <==> tag.Some? && tag.value.value == Some("APPROVED")
    ensures v == CheckRejected <==> tag.Some? && tag.value.value == Some("REJECT")
    ensures v == CheckNA <==> !(tag.Some? && (tag.value.value == Some("APPROVED") || tag.value.value == Some("REJECT")))
  {
    if tag.None? then CheckNA
    else match tag.value.value
      case Some("N/A") => CheckNA
      case Some("APPROVED") => CheckApproved
      case Some("REJECT") => CheckRejected
      case _ => CheckNA
  }

  /** The overall status: APPROVED iff all three values are APPROVED and the data check accepted, REVISE otherwise. */
  function RepresentativeStatus(scp: CheckValue, crc: CheckValue, regform: CheckValue, accepted: bool): (s: Status)
    ensures s == Approved <==> scp == CheckApproved && crc == CheckApproved && regform == CheckApproved && accepted
  {
    if scp == CheckApproved && crc == CheckApproved && regform == CheckApproved && accepted then Approved else Revise
  }

  /** An org_representative row (the fields the script writes). */
  datatype Representative = Representative(personId: int, organisationId: int, date: int,
                                           scp: CheckValue, crc: CheckValue, regform: CheckValue, status: Status,
                                           active: bool, endDate: Option<int>, dhash: Option<string>, deleted: bool)

  /** The lookup of a live representative of the person for the organisation. */
  predicate HasRepresentative(reps: seq<Representative>, personId: int, organisationId: int) {
    exists r :: r in reps && r.personId == personId && r.organisationId == organisationId && !r.deleted
  }

  /**
   * The record inserted for a staff row; `accepted` is the outcome of
   * `ProviderRepresentative.check_data` for the person. `active` is the
   * truth value of `org_contact and status == 1 and APPROVED`.
   */
  function NewRepresentative(row: StaffRow, accepted: bool): Representative
    requires Selected(row)
  {
    var start := StartDate(row);
    var scp, crc, regform := MappedValue(row.scp), MappedValue(row.crc), MappedValue(row.regform);
    var status := RepresentativeStatus(scp, crc, regform, accepted);
    var active := row.orgContact == Some(true) && row.status == Some(1) && status == Approved;
    Representative(row.personId, row.organisationId, start, scp, crc, regform, status, active,
                   if active then None else Some(EndDate(row, start)), None, false)
  }

  /** The record after the verification hash step; `vhash` is the second part of `ProviderRepresentative.vhash()`. */
  function Hashed(rep: Representative, vhash: Option<string>): Representative {
    if rep.status == Approved && TruthyStr(vhash) then rep.(dhash := vhash) else rep
  }

  function Generated(row: StaffRow, accepted: bool, vhashOf: Representative -> Option<string>): Representative
    requires Selected(row)
  {
    Hashed(NewRepresentative(row, accepted), vhashOf(NewRepresentative(row, accepted)))
  }

  /**
   * The record generated for a staff row: for the same person and
   * organisation, live, starting at the oldest tag; its values are the
   * mapped tag values; its status and activity follow the rules; an
   * inactive one ends at the latest of the modification times, not
   * before the start; and an APPROVED one carries a truthy hash.
   */
  lemma GeneratedEffect(row: StaffRow, accepted: bool, vhashOf: Representative -> Option<string>)
    requires Selected(row)
    ensures var rep := Generated(row, accepted, vhashOf);
            && rep.personId == row.personId && rep.organisationId == row.organisationId && !rep.deleted
            && (forall t :: t in Tags(row) ==> rep.date <= t.createdOn)
            && (exists t :: t in Tags(row) && rep.date == t.createdOn)
            && rep.scp == MappedValue(row.scp) && rep.crc == MappedValue(row.crc) && rep.regform == MappedValue(row.regform)
            && (rep.status == Approved <==>
                  row.scp.Some? && row.scp.value.value == Some("APPROVED") && row.crc.Some? && row.crc.value.value == Some("APPROVED")
                  && row.regform.Some? && row.regform.value.value == Some("APPROVED") && accepted)
            && (rep.active <==> row.orgContact == Some(true) && row.status == Some(1) && rep.status == Approved)
            && (rep.active <==> rep.endDate.None?)
            && (rep.endDate.Some? ==> rep.endDate.value >= rep.date && rep.endDate.value >= row.modifiedOn
                                      && forall t :: t in Tags(row) ==> t.modifiedOn <= rep.endDate.value)
            && (rep.dhash.Some? <==> rep.status == Approved && TruthyStr(vhashOf(NewRepresentative(row, accepted))))
            && (rep.dhash.Some? ==> rep.dhash == vhashOf(NewRepresentative(row, accepted)))
  {
  }

  predicate IsApproved(rep: Representative) {
    rep.status == Approved
  }

  /** The representative table, the `organisations` set and the two counters. */
  datatype GenState = GenState(reps: seq<Representative>, organisations: set<int>, generated: nat, approved: nat)

  function GenStep(s: GenState, row: StaffRow, checkData: int -> bool, vhashOf: Representative -> Option<string>): GenState {
    if !Selected(row) then s
    else
      var organisations := s.organisations + {row.organisationId};
      if HasRepresentative(s.reps, row.personId, row.organisationId) then s.(organisations := organisations)
      else
        var rep := Generated(row, checkData(row.personId), vhashOf);
        GenState(s.reps + [rep], organisations, s.generated + 1, if IsApproved(rep) then s.approved + 1 else s.approved)
  }

  /** The state after the loop over the staff rows. */
  function Generate(s: GenState, rows: seq<StaffRow>, checkData: int -> bool, vhashOf: Representative -> Option<string>): GenState {
    if rows == [] then s else GenStep(Generate(s, rows[..|rows| - 1], checkData, vhashOf), rows[|rows| - 1], checkData, vhashOf)
  }

  lemma GenerateSnoc(s: GenState, rows: seq<StaffRow>, i: nat, checkData: int -> bool, vhashOf: Representative -> Option<string>)
    requires i < |rows|
    ensures Generate(s, rows[..i + 1], checkData, vhashOf) == GenStep(Generate(s, rows[..i], checkData, vhashOf), rows[i], checkData, vhashOf)
  {
    assert rows[..i + 1][..i] == rows[..i];
  }

  lemma GenStepCases(s: GenState, row: StaffRow, checkData: int -> bool, vhashOf: Representative -> Option<string>)
    ensures !Selected(row) ==> GenStep(s, row, checkData, vhashOf) == s
    ensures Selected(row) && HasRepresentative(s.reps, row.personId, row.organisationId) ==>
              GenStep(s, row, checkData, vhashOf) == s.(organisations := s.organisations + {row.organisationId})
    ensures Selected(row) && !HasRepresentative(s.reps, row.personId, row.organisationId) ==>
              var rep := Generated(row, checkData(row.personId), vhashOf);
              GenStep(s, row, checkData, vhashOf)
              == GenState(s.reps + [rep], s.organisations + {row.organisationId}, s.generated + 1,
                          if IsApproved(rep) then s.approved + 1 else s.approved)
  {
  }

  /** The insert and the hash update of a record for a row without one: the step the loop takes. */
  lemma NewRecordStep(s: GenState, row: StaffRow, checkData: int -> bool, vhashOf: Representative -> Option<string>)
    requires Selected(row) && !HasRepresentative(s.reps, row.personId, row.organisationId)
    ensures var rep := NewRepresentative(row, checkData(row.personId));
            var vhash := vhashOf(rep);
            var reps := if rep.status == Approved && TruthyStr(vhash) then (s.reps + [rep])[|s.reps| := rep.(dhash := vhash)]
                        else s.reps + [rep];
            GenStep(s, row, checkData, vhashOf)
            == GenState(reps, s.organisations + {row.organisationId}, s.generated + 1,
                        if rep.status == Approved then s.approved + 1 else s.approved)
  {
    var rep := NewRepresentative(row, checkData(row.personId));
    assert (s.reps + [rep])[|s.reps| := rep.(dhash := vhashOf(rep))] == s.reps + [rep.(dhash := vhashOf(rep))];
  }

  /** The organisations of the selected rows. */
  function SelectedOrgs(rows: seq<StaffRow>): set<int> {
    set row | row in rows && Selected(row) :: row.organisationId
  }

  /**
   * The loop only appends records, records the organisation of every
   * selected row, skipped or not, counts every record it generates and
   * counts the approved ones among them.
   */
  lemma {:induction false} GenerateCounts(s: GenState, rows: seq<StaffRow>, checkData: int -> bool, vhashOf: Representative -> Option<string>)
    ensures var r := Generate(s, rows, checkData, vhashOf);
            && |s.reps| <= |r.reps| && r.reps[..|s.reps|] == s.reps
            && r.organisations == s.organisations + SelectedOrgs(rows)
            && r.generated + |s.reps| == s.generated + |r.reps|
            && r.approved == s.approved + CountIf(r.reps[|s.reps|..], IsApproved)
  {
    GenerateAppends(s, rows, checkData, vhashOf);
    GenerateOrgs(s, rows, checkData, vhashOf);
    GenerateApproved(s, rows, checkData, vhashOf);
  }

  lemma {:induction false} GenerateAppends(s: GenState, rows: seq<StaffRow>, checkData: int -> bool, vhashOf: Representative -> Option<string>)
    ensures var r := Generate(s, rows, checkData, vhashOf);
            && |s.reps| <= |r.reps| && r.reps[..|s.reps|] == s.reps
            && r.generated + |s.reps| == s.generated + |r.reps|
    decreases |rows|
  {
    if rows != [] {
      var n := |rows| - 1;
      GenerateAppends(s, rows[..n], checkData, vhashOf);
      var t := Generate(s, rows[..n], checkData, vhashOf);
      GenStepCases(t, rows[n], checkData, vhashOf);
      var r := Generate(s, rows, checkData, vhashOf);
      if r.reps != t.reps {
        assert r.reps[..|t.reps|] == t.reps;
        assert r.reps[..|s.reps|] == t.reps[..|s.reps|];
      }
    }
  }

  lemma {:induction false} GenerateOrgs(s: GenState, rows: seq<StaffRow>, checkData: int -> bool, vhashOf: Representative -> Option<string>)
    ensures Generate(s, rows, checkData, vhashOf).organisations == s.organisations + SelectedOrgs(rows)
    decreases |rows|
  {
    if rows != [] {
      var n := |rows| - 1;
      var init, row := rows[..n], rows[n];
      GenerateOrgs(s, init, checkData, vhashOf);
      GenStepCases(Generate(s, init, checkData, vhashOf), row, checkData, vhashOf);
      assert rows == init + [row];
      assert SelectedOrgs(rows) == SelectedOrgs(init) + (if Selected(row) then {row.organisationId} else {});
    }
  }

  lemma {:induction false} GenerateApproved(s: GenState, rows: seq<StaffRow>, checkData: int -> bool, vhashOf: Representative -> Option<string>)
    ensures var r := Generate(s, rows, checkData, vhashOf);
            |s.reps| <= |r.reps| && r.approved == s.approved + CountIf(r.reps[|s.reps|..], IsApproved)
    decreases |rows|
  {
    GenerateAppends(s, rows, checkData, vhashOf);
    if rows != [] {
      var n := |rows| - 1;
      GenerateApproved(s, rows[..n], checkData, vhashOf);
      GenerateAppends(s, rows[..n], checkData, vhashOf);
      var t := Generate(s, rows[..n], checkData, vhashOf);
      GenStepCases(t, rows[n], checkData, vhashOf);
      var r := Generate(s, rows, checkData, vhashOf);
      if r.reps != t.reps {
        var x := r.reps[|t.reps|];
        assert r.reps[|s.reps|..] == t.reps[|s.reps|..] + [x];
        FilterAppend(t.reps[|s.reps|..], [x], IsApproved);
      }
    }
  }

  /** `rep` is the record generated for one of the selected rows whose person had no live representative for the organisation in `before`. */
  predicate GeneratedFrom(rep: Representative, rows: seq<StaffRow>, before: seq<Representative>,
                          checkData: int -> bool, vhashOf: Representative -> Option<string>) {
    exists row :: row in rows && Selected(row) && rep == Generated(row, checkData(row.personId), vhashOf)
                  && !HasRepresentative(before, row.personId, row.organisationId)
  }

  /**
   * Every generated record belongs to a selected row whose person had no
   * live representative for the organisation before the loop.
   */
  lemma {:induction false} GenerateOrigin(s: GenState, rows: seq<StaffRow>, checkData: int -> bool, vhashOf: Representative -> Option<string>)
    ensures var r := Generate(s, rows, checkData, vhashOf);
            forall k :: |s.reps| <= k < |r.reps| ==> GeneratedFrom(r.reps[k], rows, s.reps, checkData, vhashOf)
  {
    if rows != [] {
      var n := |rows| - 1;
      var init, last := rows[..n], rows[n];
      GenerateOrigin(s, init, checkData, vhashOf);
      GenerateCounts(s, init, checkData, vhashOf);
      var t := Generate(s, init, checkData, vhashOf);
      var r := Generate(s, rows, checkData, vhashOf);
      assert r == GenStep(t, last, checkData, vhashOf);
      forall k | |s.reps| <= k < |r.reps|
        ensures GeneratedFrom(r.reps[k], rows, s.reps, checkData, vhashOf)
      {
        if k < |t.reps| {
          assert r.reps[k] == t.reps[k];
          assert GeneratedFrom(t.reps[k], init, s.reps, checkData, vhashOf);
          var row :| row in init && Selected(row) && t.reps[k] == Generated(row, checkData(row.personId), vhashOf)
                     && !HasRepresentative(s.reps, row.personId, row.organisationId);
          assert row in rows;
        } else {
          assert last in rows;
          assert !HasRepresentative(t.reps, last.personId, last.organisationId);
          assert forall x :: x in s.reps ==> x in t.reps by {
            forall x | x in s.reps ensures x in t.reps {
              var i :| 0 <= i < |s.reps| && s.reps[i] == x;
              assert t.reps[..|s.reps|][i] == x;
            }
          }
        }
      }
    }
  }

  /** The generated records are live, and no two of them share a person and an organisation. */
  lemma {:induction false} GenerateDistinct(s: GenState, rows: seq<StaffRow>, checkData: int -> bool, vhashOf: Representative -> Option<string>)
    ensures var r := Generate(s, rows, checkData, vhashOf);
            && (forall k :: |s.reps| <= k < |r.reps| ==> !r.reps[k].deleted)
            && (forall k, l :: |s.reps| <= k < l < |r.reps| ==>
                  r.reps[k].personId != r.reps[l].personId || r.reps[k].organisationId != r.reps[l].organisationId)
  {
    if rows != [] {
      var n := |rows| - 1;
      var init, last := rows[..n], rows[n];
      GenerateDistinct(s, init, checkData, vhashOf);
      GenerateCounts(s, init, checkData, vhashOf);
      var t := Generate(s, init, checkData, vhashOf);
      var r := Generate(s, rows, checkData, vhashOf);
      assert r == GenStep(t, last, checkData, vhashOf);
      if r.reps != t.reps {
        var rep := Generated(last, checkData(last.personId), vhashOf);
        GeneratedEffect(last, checkData(last.personId), vhashOf);
        assert r.reps == t.reps + [rep];
        assert !HasRepresentative(t.reps, last.personId, last.organisationId);
        forall k | |s.reps| <= k < |t.reps|
          ensures t.reps[k].personId != rep.personId || t.reps[k].organisationId != rep.organisationId
        {
          assert t.reps[k] in t.reps;
        }
      }
    }
  }

  /** After the loop every selected row's person has a live representative for its organisation. */
  lemma {:induction false} GenerateCovers(s: GenState, rows: seq<StaffRow>, checkData: int -> bool, vhashOf: Representative -> Option<string>)
    ensures var r := Generate(s, rows, checkData, vhashOf);
            forall row :: row in rows && Selected(row) ==> HasRepresentative(r.reps, row.personId, row.organisationId)
  {
    if rows != [] {
      var n := |rows| - 1;
      var init, last := rows[..n], rows[n];
      GenerateCovers(s, init, checkData, vhashOf);
      var t := Generate(s, init, checkData, vhashOf);
      var r := Generate(s, rows, checkData, vhashOf);
      assert forall x :: x in t.reps ==> x in r.reps;
      if Selected(last) && !HasRepresentative(t.reps, last.personId, last.organisationId) {
        GeneratedEffect(last, checkData(last.personId), vhashOf);
        assert r.reps[|t.reps|] in r.reps;
      }
      forall row | row in rows && Selected(row)
        ensures HasRepresentative(r.reps, row.personId, row.organisationId)
      {
        if row in init {
          var x :| x in t.reps && x.personId == row.personId && x.organisationId == row.organisationId && !x.deleted;
        } else {
          assert row == last;
        }
      }
    }
  }

  // ---------------------------------------------------------------------------
  // Documents

  /** A doc_document row. */
  datatype Document = Document(date: Option<int>, createdOn: Option<int>, deleted: bool)

  /** "Fix upload dates for documents": a document without a date gets its creation date; the others are unchanged. */
  function FixDates(docs: seq<Document>): (r: seq<Document>)
    ensures |r| == |docs|
    ensures forall i :: 0 <= i < |r| ==>
              && (docs[i].date.None? ==> r[i] == docs[i].(date := docs[i].createdOn))
              && (docs[i].date.Some? ==> r[i] == docs[i])
  {
    seq(|docs|, i requires 0 <= i < |docs| => if docs[i].date.None? then docs[i].(date := docs[i].createdOn) else docs[i])
  }

  // ---------------------------------------------------------------------------
  // The script

  /**
   * A `set_realm_entity` call: the table, whether its query selects only
   * the deleted rows (`deleted > 0`), and `force_update`.
   */
  datatype RealmUpdate = RealmUpdate(table: string, deletedOnly: bool, forceUpdate: bool)

  /**
   * The realm update that opens "Update provider verifications". As
   * written, its query `vtable.deleted > 0` selects the deleted
   * verification rows only.
   */
  const VerificationRealmUpdate := RealmUpdate("org_verification", true, true)

  /**
   * The tables the script touches; `realmUpdates` logs the
   * `set_realm_entity` calls and `verificationUpdates` the
   * `update_verification` calls.
   */
  class RepresentativeUpgrade {
    var requirements: seq<Requirement>
    var representatives: seq<Representative>
    var realmUpdates: seq<RealmUpdate>
    var verificationUpdates: seq<int>
    var documents: seq<Document>

    constructor (requirements: seq<Requirement>, representatives: seq<Representative>, documents: seq<Document>)
      ensures this.requirements == requirements && this.representatives == representatives
      ensures this.documents == documents && realmUpdates == [] && verificationUpdates == []
    {
      this.requirements := requirements;
      this.representatives := representatives;
      this.documents := documents;
      realmUpdates := [];
      verificationUpdates := [];
    }

    /** "Update provider requirements"; `updated` is the number of rows. */
    method UpdateRequirements() returns (updated: nat)
      modifies this
      ensures requirements == CopyRinforeq(old(requirements)) && updated == |requirements|
      ensures representatives == old(representatives) && verificationUpdates == old(verificationUpdates)
      ensures documents == old(documents) && realmUpdates == old(realmUpdates)
    {
      requirements := CopyRinforeq(requirements);
      updated := |requirements|;
    }

    /** The lookup of a live representative of the person for the organisation. */
    static method FindRepresentative(reps: seq<Representative>, personId: int, organisationId: int) returns (found: bool)
      ensures found <==> HasRepresentative(reps, personId, organisationId)
    {
      found := false;
      var j := 0;
      while j < |reps| && !found
        invariant 0 <= j <= |reps|
        invariant found <==> HasRepresentative(reps[..j], personId, organisationId)
      {
        assert reps[..j + 1] == reps[..j] + [reps[j]];
        var r := reps[j];
        found := r.personId == personId && r.organisationId == organisationId && !r.deleted;
        j := j + 1;
      }
      if !found {
        assert reps[..j] == reps;
      } else {
        var r :| r in reps[..j] && r.personId == personId && r.organisationId == organisationId && !r.deleted;
        assert r in reps;
      }
    }

    /**
     * "Generate representative verifications"; `checkData` stands for the
     * data check of a person and `vhashOf` for the hash of a new record.
     */
    method GenerateRepresentatives(rows: seq<StaffRow>, checkData: int -> bool, vhashOf: Representative -> Option<string>)
      returns (organisations: set<int>, generated: nat, approved: nat)
      modifies this
      ensures GenState(representatives, organisations, generated, approved)
              == Generate(GenState(old(representatives), {}, 0, 0), rows, checkData, vhashOf)
      ensures requirements == old(requirements) && verificationUpdates == old(verificationUpdates)
      ensures documents == old(documents) && realmUpdates == old(realmUpdates)
    {
      ghost var s0 := GenState(representatives, {}, 0, 0);
      organisations, generated, approved := {}, 0, 0;
      var i := 0;
      while i < |rows|
        invariant 0 <= i <= |rows|
        invariant GenState(representatives, organisations, generated, approved) == Generate(s0, rows[..i], checkData, vhashOf)
        invariant requirements == old(requirements) && verificationUpdates == old(verificationUpdates)
        invariant documents == old(documents) && realmUpdates == old(realmUpdates)
      {
        GenerateSnoc(s0, rows, i, checkData, vhashOf);
        GenStepCases(Generate(s0, rows[..i], checkData, vhashOf), rows[i], checkData, vhashOf);
        var row := rows[i];
        if Selected(row) {
          organisations := organisations + {row.organisationId};
          var found := FindRepresentative(representatives, row.personId, row.organisationId);
          if !found {
            NewRecordStep(Generate(s0, rows[..i], checkData, vhashOf), row, checkData, vhashOf);
            var rep := NewRepresentative(row, checkData(row.personId));
            representatives := representatives + [rep];
            var vhash := vhashOf(rep);
            if rep.status == Approved && TruthyStr(vhash) {
              representatives := representatives[|representatives| - 1 := rep.(dhash := vhash)];
            }
            generated := generated + 1;
            if rep.status == Approved {
              approved := approved + 1;
            }
          }
        }
        i := i + 1;
      }
      assert rows[..|rows|] == rows;
    }

    /**
     * "Update provider verifications": the realm update of the verification
     * rows, then one `update_verification` call per test station among the
     * organisations.
     */
    method UpdateVerifications(organisations: set<int>, isTestStation: int -> bool) returns (updated: nat)
      modifies this
      ensures realmUpdates == old(realmUpdates) + [VerificationRealmUpdate]
      ensures |old(verificationUpdates)| <= |verificationUpdates|
      ensures verificationUpdates[..|old(verificationUpdates)|] == old(verificationUpdates)
      ensures var calls := verificationUpdates[|old(verificationUpdates)|..];
              && NoRepeats(calls) && updated == |calls|
              && forall org :: org in calls <==> org in organisations && isTestStation(org)
      ensures requirements == old(requirements) && representatives == old(representatives) && documents == old(documents)
    {
      realmUpdates := realmUpdates + [VerificationRealmUpdate];
      ghost var calls0 := verificationUpdates;
      var rest := organisations;
      ghost var done: seq<int> := [];
      updated := 0;
      while rest != {}
        invariant verificationUpdates == calls0 + done && updated == |done|
        invariant forall org :: org in done <==> org in organisations && org !in rest && isTestStation(org)
        invariant rest <= organisations
        invariant NoRepeats(done)
        invariant requirements == old(requirements) && representatives == old(representatives) && documents == old(documents)
        invariant realmUpdates == old(realmUpdates) + [VerificationRealmUpdate]
        decreases |rest|
      {
        assert exists x :: x in rest by { NonEmpty(rest); }
        var org :| org in rest;
        if isTestStation(org) {
          verificationUpdates := verificationUpdates + [org];
          done := done + [org];
          updated := updated + 1;
        }
        rest := rest - {org};
      }
      assert verificationUpdates[|calls0|..] == done;
    }

    /** "Fix upload dates for documents"; `updated` counts the documents without a date. */
    method FixDocumentDates() returns (updated: nat)
      modifies this
      ensures documents == FixDates(old(documents))
      ensures updated == CountIf(old(documents), (d: Document) => d.date.None?)
      ensures requirements == old(requirements) && representatives == old(representatives)
      ensures verificationUpdates == old(verificationUpdates) && realmUpdates == old(realmUpdates)
    {
      updated := CountIf(documents, (d: Document) => d.date.None?);
      documents := FixDates(documents);
    }

    /**
     * The whole script; `cmsOk` and `rolesOk` are the outcomes of the CMS
     * and role imports. A failed CMS import skips every step, and either
     * failure rolls everything back.
     */
    method Run(cmsOk: bool, rows: seq<StaffRow>, checkData: int -> bool, vhashOf: Representative -> Option<string>,
               isTestStation: int -> bool, rolesOk: bool) returns (failed: bool)
      modifies this
      ensures failed <==> !(cmsOk && rolesOk)
      ensures failed ==> requirements == old(requirements) && representatives == old(representatives)
                         && verificationUpdates == old(verificationUpdates) && documents == old(documents)
                         && realmUpdates == old(realmUpdates)
      ensures !failed ==>
                var g := Generate(GenState(old(representatives), {}, 0, 0), rows, checkData, vhashOf);
                && requirements == CopyRinforeq(old(requirements))
                && representatives == g.reps
                && documents == FixDates(old(documents))
                && realmUpdates == old(realmUpdates) + [VerificationRealmUpdate]
                && |old(verificationUpdates)| <= |verificationUpdates|
                && verificationUpdates[..|old(verificationUpdates)|] == old(verificationUpdates)
                && forall org :: org in verificationUpdates[|old(verificationUpdates)|..] <==>
                                   org in g.organisations && isTestStation(org)
    {
      var requirements0, representatives0 := requirements, representatives;
      var verificationUpdates0, documents0 := verificationUpdates, documents;
      var realmUpdates0 := realmUpdates;
      failed := !cmsOk;
      if !failed {
        var _ := UpdateRequirements();
        var organisations, _, _ := GenerateRepresentatives(rows, checkData, vhashOf);
        var _ := UpdateVerifications(organisations, isTestStation);
        var _ := FixDocumentDates();
        failed := !rolesOk;
      }
      if failed {
        requirements, representatives := requirements0, representatives0;
        verificationUpdates, documents := verificationUpdates0, documents0;
        realmUpdates := realmUpdates0;
      }
    }
  }
}
