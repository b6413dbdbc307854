/**
 * RLPPTM upgrade 1.20.1 => 1.20.2: the type and MPAV checks of every
 * provider verification are reset from the provider's defaults, the
 * status is recomputed, and a changed verification reinstates or
 * suspends the provider's commissions for reason "N/V".
 */
module Upgrade1201 {
  import opened Wrappers

  /** An org_verification row (the fields the script reads or writes). */
  datatype Verification = Verification(organisationId: int, orgtype: Option<string>, mpav: Option<string>,
                                       reprinfo: Option<string>, status: Option<string>, deleted: bool)

  /** `TestProvider.verification_defaults()`: the values the provider's requirements call for. */
  datatype Defaults = Defaults(orgtype: Option<string>, mpav: Option<string>, reprinfo: Option<string>)

  /** A call of `reinstate_commission("N/V")` or `suspend_commission("N/V")` for a provider. */
  datatype CommissionCall = Reinstate(organisationId: int) | Suspend(organisationId: int)

  /** The defaults that are taken as they are. */
  predicate Final(d: Option<string>) {
    d == Some("N/A") || d == Some("ACCEPT") || d == Some("VERIFIED")
  }

  /**
   * The new value of the type or MPAV check: a default of N/A, ACCEPT or
   * VERIFIED is taken; otherwise an ACCEPT still standing is put back to
   * REVIEW, and any other value is kept. Only an ACCEPT default gives ACCEPT.
   */
  function FixedValue(default: Option<string>, current: Option<string>): (v: Option<string>)
    ensures Final(default) ==> v == default
    ensures !Final(default) ==> v == (if current == Some("ACCEPT") then Some("REVIEW") else current)
    ensures v == Some("ACCEPT") ==> default == Some("ACCEPT")
  {
    if Final(default) then default
    else if current == Some("ACCEPT") then Some("REVIEW")
    else current
  }

  /**
   * The record after the update: the fixed type and MPAV checks, the
   * default representative check, and `statusOf` (`TestProvider.status`)
   * of these three as status.
   */
  function Fixed(v: Verification, d: Defaults, statusOf: (Option<string>, Option<string>, Option<string>) -> string): Verification {
    var orgtype := FixedValue(d.orgtype, v.orgtype);
    var mpav := FixedValue(d.mpav, v.mpav);
    v.(orgtype := orgtype, mpav := mpav, reprinfo := d.reprinfo, status := Some(statusOf(orgtype, mpav, d.reprinfo)))
  }

  /** Fixing a fixed record changes nothing, so a second pass writes nothing. */
  lemma FixedIdempotent(v: Verification, d: Defaults, statusOf: (Option<string>, Option<string>, Option<string>) -> string)
    ensures Fixed(Fixed(v, d, statusOf), d, statusOf) == Fixed(v, d, statusOf)
    ensures Fixed(v, d, statusOf) == v.(orgtype := Fixed(v, d, statusOf).orgtype, mpav := Fixed(v, d, statusOf).mpav,
                                        reprinfo := d.reprinfo, status := Fixed(v, d, statusOf).status)
  {
    var f := Fixed(v, d, statusOf);
    assert FixedValue(d.orgtype, f.orgtype) == f.orgtype;
    assert FixedValue(d.mpav, f.mpav) == f.mpav;
  }

  /** The organisation and deletion flag of each record: all the provider lookup reads. */
  function Keys(vs: seq<Verification>): (r: seq<(int, bool)>)
    ensures |r| == |vs| && forall i :: 0 <= i < |vs| ==> r[i] == (vs[i].organisationId, vs[i].deleted)
  {
    seq(|vs|, i requires 0 <= i < |vs| => (vs[i].organisationId, vs[i].deleted))
  }

  /** `TestProvider(org).verification`: the first live record of the organisation. */
  function ProviderIndex(vs: seq<Verification>, org: int): (k: Option<nat>)
    ensures k.Some? ==> k.value < |vs| && vs[k.value].organisationId == org && !vs[k.value].deleted
    ensures k.None? ==> forall j :: 0 <= j < |vs| ==> vs[j].organisationId != org || vs[j].deleted
  {
    var k := FirstIndex(Keys(vs), (key: (int, bool)) => key.0 == org && !key.1);
    assert k.None? ==> forall j :: 0 <= j < |vs| ==> Keys(vs)[j].0 != org || Keys(vs)[j].1;
    k
  }

  /** The organisations of the live records: the rows the script loops over. */
  function LiveOrgs(vs: seq<Verification>): seq<int> {
    Collect(vs, (v: Verification) => !v.deleted, (v: Verification) => v.organisationId)
  }

  /** The verification table, the commission calls and the `updated` counter. */
  datatype FixState = FixState(vs: seq<Verification>, calls: seq<CommissionCall>, updated: nat)

  function CallFor(org: int, f: Verification): CommissionCall {
    if f.status == Some("COMPLETE") then Reinstate(org) else Suspend(org)
  }

  /** One organisation: its verification is written iff the fixed record differs, and then one commission call follows. */
  function FixStep(s: FixState, org: int, defaultsOf: int -> Defaults,
                   statusOf: (Option<string>, Option<string>, Option<string>) -> string): FixState {
    match ProviderIndex(s.vs, org)
    case None => s
    case Some(k) =>
      var f := Fixed(s.vs[k], defaultsOf(org), statusOf);
      if f != s.vs[k] then FixState(s.vs[k := f], s.calls + [CallFor(org, f)], s.updated + 1) else s
  }

  function FixAll(s: FixState, orgs: seq<int>, defaultsOf: int -> Defaults,
                  statusOf: (Option<string>, Option<string>, Option<string>) -> string): FixState {
    if orgs == [] then s else FixStep(FixAll(s, orgs[..|orgs| - 1], defaultsOf, statusOf), orgs[|orgs| - 1], defaultsOf, statusOf)
  }

  /** The record of `vs[j]` after the loop, when it is the provider's record and the provider is visited. */
  function Expected(vs: seq<Verification>, j: nat, orgs: seq<int>, defaultsOf: int -> Defaults,
                    statusOf: (Option<string>, Option<string>, Option<string>) -> string): Verification
    requires j < |vs|
  {
    var org := vs[j].organisationId;
    if ProviderIndex(vs, org) == Some(j) && org in orgs then Fixed(vs[j], defaultsOf(org), statusOf) else vs[j]
  }

  /** Records with the same organisations and deletion flags have the same providers. */
  lemma SameKeysSameProviders(a: seq<Verification>, b: seq<Verification>)
    requires Keys(a) == Keys(b)
    ensures forall o :: ProviderIndex(a, o) == ProviderIndex(b, o)
  {
  }

  /** The visit of `org` writes: its fixed record differs from the stored one. */
  predicate Writes(t: FixState, org: int, defaultsOf: int -> Defaults,
                   statusOf: (Option<string>, Option<string>, Option<string>) -> string) {
    var k := ProviderIndex(t.vs, org);
    k.Some? && Fixed(t.vs[k.value], defaultsOf(org), statusOf) != t.vs[k.value]
  }

  /** A visit that writes stores the fixed record, appends one call and keeps every provider. */
  lemma FixStepWrites(t: FixState, org: int, defaultsOf: int -> Defaults,
                      statusOf: (Option<string>, Option<string>, Option<string>) -> string)
    requires Writes(t, org, defaultsOf, statusOf)
    ensures var k := ProviderIndex(t.vs, org).value;
            var f := Fixed(t.vs[k], defaultsOf(org), statusOf);
            var r := FixStep(t, org, defaultsOf, statusOf);
            && r.vs == t.vs[k := f] && r.calls == t.calls + [CallFor(org, f)] && r.updated == t.updated + 1
            && Keys(r.vs) == Keys(t.vs)
            && (forall o :: ProviderIndex(r.vs, o) == ProviderIndex(t.vs, o))
  {
    var k := ProviderIndex(t.vs, org).value;
    var f := Fixed(t.vs[k], defaultsOf(org), statusOf);
    assert Keys(t.vs[k := f]) == Keys(t.vs);
    SameKeysSameProviders(t.vs[k := f], t.vs);
  }

  /** A visit that does not write changes nothing. */
  lemma FixStepSkips(t: FixState, org: int, defaultsOf: int -> Defaults,
                     statusOf: (Option<string>, Option<string>, Option<string>) -> string)
    requires !Writes(t, org, defaultsOf, statusOf)
    ensures FixStep(t, org, defaultsOf, statusOf) == t
  {
  }

  /** The last visit of a non-empty loop. */
  lemma FixAllSnoc(s: FixState, orgs: seq<int>, defaultsOf: int -> Defaults,
                   statusOf: (Option<string>, Option<string>, Option<string>) -> string)
    requires orgs != []
    ensures FixAll(s, orgs, defaultsOf, statusOf)
            == FixStep(FixAll(s, orgs[..|orgs| - 1], defaultsOf, statusOf), orgs[|orgs| - 1], defaultsOf, statusOf)
    ensures forall x :: x in orgs <==> x in orgs[..|orgs| - 1] || x == orgs[|orgs| - 1]
  {
    assert orgs == orgs[..|orgs| - 1] + [orgs[|orgs| - 1]];
  }

  /** One record after a visit of `org` that was already visited up to `t`. */
  lemma RecordStep(s: FixState, t: FixState, org: int, j: nat, init: seq<int>, defaultsOf: int -> Defaults,
                   statusOf: (Option<string>, Option<string>, Option<string>) -> string)
    requires j < |s.vs| && Keys(t.vs) == Keys(s.vs)
    requires forall o :: ProviderIndex(t.vs, o) == ProviderIndex(s.vs, o)
    requires t.vs[j] == Expected(s.vs, j, init, defaultsOf, statusOf)
    ensures FixStep(t, org, defaultsOf, statusOf).vs[j] == Expected(s.vs, j, init + [org], defaultsOf, statusOf)
  {
    var v := s.vs[j];
    assert v.organisationId in init + [org] <==> v.organisationId in init || v.organisationId == org;
    var k := ProviderIndex(t.vs, org);
    assert |t.vs| == |Keys(t.vs)|;
    if Writes(t, org, defaultsOf, statusOf) {
      FixStepWrites(t, org, defaultsOf, statusOf);
      FixedIdempotent(s.vs[k.value], defaultsOf(org), statusOf);
      if j != k.value {
        assert ProviderIndex(s.vs, v.organisationId) == Some(j) ==> v.organisationId != org;
      }
    } else if k.Some? && k.value == j {
      FixedIdempotent(v, defaultsOf(org), statusOf);
    }
  }

  /**
   * The loop keeps the organisation and deletion flag of every record, and
   * leaves each provider's record fixed if the provider is visited, once
   * or more, and every other record as it was.
   */
  lemma {:induction false} FixAllRecords(s: FixState, orgs: seq<int>, defaultsOf: int -> Defaults,
                                         statusOf: (Option<string>, Option<string>, Option<string>) -> string)
    ensures var r := FixAll(s, orgs, defaultsOf, statusOf);
            && Keys(r.vs) == Keys(s.vs)
            && forall j :: 0 <= j < |s.vs| ==> r.vs[j] == Expected(s.vs, j, orgs, defaultsOf, statusOf)
  {
    if orgs == [] {
      forall j | 0 <= j < |s.vs|
        ensures s.vs[j] == Expected(s.vs, j, orgs, defaultsOf, statusOf)
      {
      }
    } else {
      var n := |orgs| - 1;
      var init, org := orgs[..n], orgs[n];
      FixAllRecords(s, init, defaultsOf, statusOf);
      FixAllSnoc(s, orgs, defaultsOf, statusOf);
      assert orgs == init + [org];
      var t := FixAll(s, init, defaultsOf, statusOf);
      SameKeysSameProviders(t.vs, s.vs);
      if Writes(t, org, defaultsOf, statusOf) {
        FixStepWrites(t, org, defaultsOf, statusOf);
      }
      forall j | 0 <= j < |s.vs|
        ensures FixStep(t, org, defaultsOf, statusOf).vs[j] == Expected(s.vs, j, orgs, defaultsOf, statusOf)
      {
        RecordStep(s, t, org, j, init, defaultsOf, statusOf);
      }
    }
  }

  /** The provider's record is fixed: a visit writes nothing. */
  predicate Settled(vs: seq<Verification>, org: int, defaultsOf: int -> Defaults,
                    statusOf: (Option<string>, Option<string>, Option<string>) -> string) {
    var k := ProviderIndex(vs, org);
    k.Some? && Fixed(vs[k.value], defaultsOf(org), statusOf) == vs[k.value]
  }

  /** The commission call of an organisation agrees with the status of its record. */
  predicate CallMatches(vs: seq<Verification>, c: CommissionCall) {
    var k := ProviderIndex(vs, c.organisationId);
    k.Some? && (c.Reinstate? <==> vs[k.value].status == Some("COMPLETE"))
  }

  /** A write for `org` leaves a settled other provider and its call as they were. */
  lemma WriteKeepsOthers(t: FixState, org: int, c: CommissionCall, defaultsOf: int -> Defaults,
                         statusOf: (Option<string>, Option<string>, Option<string>) -> string)
    requires Writes(t, org, defaultsOf, statusOf)
    requires Settled(t.vs, c.organisationId, defaultsOf, statusOf) && CallMatches(t.vs, c)
    ensures c.organisationId != org
    ensures var r := FixStep(t, org, defaultsOf, statusOf);
            Settled(r.vs, c.organisationId, defaultsOf, statusOf) && CallMatches(r.vs, c)
  {
    FixStepWrites(t, org, defaultsOf, statusOf);
    var k := ProviderIndex(t.vs, org).value;
    var ko := ProviderIndex(t.vs, c.organisationId).value;
    assert ko != k;
  }

  /** A write for `org` leaves its record settled and its call matching. */
  lemma WriteSettles(t: FixState, org: int, defaultsOf: int -> Defaults,
                     statusOf: (Option<string>, Option<string>, Option<string>) -> string)
    requires Writes(t, org, defaultsOf, statusOf)
    ensures var r := FixStep(t, org, defaultsOf, statusOf);
            && r.calls[|r.calls| - 1].organisationId == org
            && Settled(r.vs, org, defaultsOf, statusOf) && CallMatches(r.vs, r.calls[|r.calls| - 1])
  {
    FixStepWrites(t, org, defaultsOf, statusOf);
    var k := ProviderIndex(t.vs, org).value;
    FixedIdempotent(t.vs[k], defaultsOf(org), statusOf);
  }

  /** The calls made before are kept, and one call is made per write. */
  lemma {:induction false} FixAllCount(s: FixState, orgs: seq<int>, defaultsOf: int -> Defaults,
                                       statusOf: (Option<string>, Option<string>, Option<string>) -> string)
    ensures var r := FixAll(s, orgs, defaultsOf, statusOf);
            && |s.calls| <= |r.calls| && r.calls[..|s.calls|] == s.calls
            && r.updated + |s.calls| == s.updated + |r.calls|
  {
    if orgs != [] {
      var n := |orgs| - 1;
      FixAllCount(s, orgs[..n], defaultsOf, statusOf);
      FixAllSnoc(s, orgs, defaultsOf, statusOf);
      var t := FixAll(s, orgs[..n], defaultsOf, statusOf);
      if Writes(t, orgs[n], defaultsOf, statusOf) {
        FixStepWrites(t, orgs[n], defaultsOf, statusOf);
        assert (t.calls + [CallFor(orgs[n], Fixed(t.vs[ProviderIndex(t.vs, orgs[n]).value], defaultsOf(orgs[n]), statusOf))])[..|s.calls|]
               == t.calls[..|s.calls|];
      }
    }
  }

  /** Every call made by the loop is for a visited provider, matches its status and leaves it settled. */
  lemma {:induction false} FixAllSettled(s: FixState, orgs: seq<int>, defaultsOf: int -> Defaults,
                                         statusOf: (Option<string>, Option<string>, Option<string>) -> string)
    ensures var r := FixAll(s, orgs, defaultsOf, statusOf);
            forall i :: |s.calls| <= i < |r.calls| ==>
              r.calls[i].organisationId in orgs && CallMatches(r.vs, r.calls[i])
              && Settled(r.vs, r.calls[i].organisationId, defaultsOf, statusOf)
  {
    if orgs != [] {
      var n := |orgs| - 1;
      var init, org := orgs[..n], orgs[n];
      FixAllSettled(s, init, defaultsOf, statusOf);
      FixAllSnoc(s, orgs, defaultsOf, statusOf);
      var t := FixAll(s, init, defaultsOf, statusOf);
      var r := FixStep(t, org, defaultsOf, statusOf);
      if Writes(t, org, defaultsOf, statusOf) {
        FixStepWrites(t, org, defaultsOf, statusOf);
        WriteSettles(t, org, defaultsOf, statusOf);
        forall i | |s.calls| <= i < |r.calls|
          ensures r.calls[i].organisationId in orgs && CallMatches(r.vs, r.calls[i])
                  && Settled(r.vs, r.calls[i].organisationId, defaultsOf, statusOf)
        {
          if i < |t.calls| {
            assert r.calls[i] == t.calls[i];
            WriteKeepsOthers(t, org, t.calls[i], defaultsOf, statusOf);
          }
        }
      } else {
        FixStepSkips(t, org, defaultsOf, statusOf);
      }
    }
  }

  /** The loop calls at most once per provider. */
  lemma {:induction false} FixAllDistinct(s: FixState, orgs: seq<int>, defaultsOf: int -> Defaults,
                                          statusOf: (Option<string>, Option<string>, Option<string>) -> string)
    ensures var r := FixAll(s, orgs, defaultsOf, statusOf);
            forall i, j :: |s.calls| <= i < j < |r.calls| ==> r.calls[i].organisationId != r.calls[j].organisationId
  {
    if orgs != [] {
      var n := |orgs| - 1;
      var init, org := orgs[..n], orgs[n];
      FixAllDistinct(s, init, defaultsOf, statusOf);
      FixAllSettled(s, init, defaultsOf, statusOf);
      FixAllSnoc(s, orgs, defaultsOf, statusOf);
      var t := FixAll(s, init, defaultsOf, statusOf);
      if Writes(t, org, defaultsOf, statusOf) {
        FixStepWrites(t, org, defaultsOf, statusOf);
        forall i | |s.calls| <= i < |t.calls|
          ensures t.calls[i].organisationId != org
        {
          WriteKeepsOthers(t, org, t.calls[i], defaultsOf, statusOf);
        }
      } else {
        FixStepSkips(t, org, defaultsOf, statusOf);
      }
    }
  }

  /**
   * Each write is followed by exactly one commission call: the loop makes
   * one call per record written, for a visited provider, at most one per
   * provider; the call reinstates iff the final status is COMPLETE; and
   * the provider's record is then settled.
   */
  lemma FixAllCalls(s: FixState, orgs: seq<int>, defaultsOf: int -> Defaults,
                    statusOf: (Option<string>, Option<string>, Option<string>) -> string)
    ensures var r := FixAll(s, orgs, defaultsOf, statusOf);
            && |s.calls| <= |r.calls| && r.calls[..|s.calls|] == s.calls
            && r.updated + |s.calls| == s.updated + |r.calls|
            && (forall i :: |s.calls| <= i < |r.calls| ==>
                  r.calls[i].organisationId in orgs && CallMatches(r.vs, r.calls[i])
                  && Settled(r.vs, r.calls[i].organisationId, defaultsOf, statusOf))
            && (forall i, j :: |s.calls| <= i < j < |r.calls| ==> r.calls[i].organisationId != r.calls[j].organisationId)
  {
    FixAllCount(s, orgs, defaultsOf, statusOf);
    FixAllSettled(s, orgs, defaultsOf, statusOf);
    FixAllDistinct(s, orgs, defaultsOf, statusOf);
  }

  /** The verification table and the commission calls. */
  class VerificationFix {
    var verifications: seq<Verification>
    var commissionCalls: seq<CommissionCall>

    constructor (verifications: seq<Verification>)
      ensures this.verifications == verifications && commissionCalls == []
    {
      this.verifications := verifications;
      commissionCalls := [];
    }

    /**
     * "Fix provider verifications": the loop over the organisations of the
     * live records; `defaultsOf` and `statusOf` stand for the provider's
     * defaults and status rule; `updated` counts the records written.
     */
    method FixVerifications(defaultsOf: int -> Defaults, statusOf: (Option<string>, Option<string>, Option<string>) -> string)
      returns (updated: nat)
      modifies this
      ensures FixState(verifications, commissionCalls, updated)
              == FixAll(FixState(old(verifications), old(commissionCalls), 0), LiveOrgs(old(verifications)), defaultsOf, statusOf)
    {
      var orgs := LiveOrgs(verifications);
      ghost var s0 := FixState(verifications, commissionCalls, 0);
      updated := 0;
      var i := 0;
      while i < |orgs|
        invariant 0 <= i <= |orgs|
        invariant FixState(verifications, commissionCalls, updated) == FixAll(s0, orgs[..i], defaultsOf, statusOf)
      {
        assert orgs[..i + 1][..i] == orgs[..i];
        var org := orgs[i];
        var k := ProviderIndex(verifications, org);
        if k.Some? {
          var verification := verifications[k.value];
          var update := Fixed(verification, defaultsOf(org), statusOf);
          if update != verification {
            verifications := verifications[k.value := update];
            if update.status == Some("COMPLETE") {
              commissionCalls := commissionCalls + [Reinstate(org)];
            } else {
              commissionCalls := commissionCalls + [Suspend(org)];
            }
            updated := updated + 1;
          }
        }
        i := i + 1;
      }
      assert orgs[..|orgs|] == orgs;
    }
  }

  /** Every live record's organisation has a provider record, so every visited provider is found. */
  lemma LiveOrgsHaveProviders(vs: seq<Verification>)
    ensures forall org :: org in LiveOrgs(vs) ==> ProviderIndex(vs, org).Some?
  {
    CollectMembers(vs, (v: Verification) => !v.deleted, (v: Verification) => v.organisationId);
    forall org | org in LiveOrgs(vs)
      ensures ProviderIndex(vs, org).Some?
    {
      var v :| v in vs && !v.deleted && org == v.organisationId;
      var j :| 0 <= j < |vs| && vs[j] == v;
    }
  }
}
