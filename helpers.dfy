/**
 * Business helpers of the RLPPTM template: sorting an organisation's user
 * accounts, spreading pending invoices over accountants, the permission to
 * cancel a voucher debit, and the default tags of new organisations and
 * facilities.
 */
module Helpers {
  import opened Wrappers
  import opened Strings

  // ---------------------------------------------------------------------------
  // get_org_accounts

  datatype User = User(id: int, firstName: string, lastName: string, email: string, registrationKey: Option<string>)

  /** A row of the user/organisation join, with the pe_id of the linked person (left join). */
  datatype AccountRow = AccountRow(user: User, personPeId: Option<int>)

  datatype AccountKind = Active | Disabled | Invited

  /** Invited without a linked person, else disabled with a registration key, else active. */
  function KindOf(row: AccountRow): AccountKind {
    if Truthy(row.personPeId) then
      if TruthyStr(row.user.registrationKey) then Disabled else Active
    else Invited
  }

  /** The users of the rows of one kind, in row order. */
  function UsersOf(rows: seq<AccountRow>, kind: AccountKind): (users: seq<User>)
    ensures |users| <= |rows|
    decreases |rows|
  {
    if rows == [] then []
    else
      var last := rows[|rows| - 1];
      UsersOf(rows[..|rows| - 1], kind) + (if KindOf(last) == kind then [last.user] else [])
  }

  function AllUsers(rows: seq<AccountRow>): (users: seq<User>)
    ensures |users| == |rows|
    ensures forall k :: 0 <= k < |rows| ==> users[k] == rows[k].user
  {
    seq(|rows|, k requires 0 <= k < |rows| => rows[k].user)
  }

  /** Every user lands in exactly one of the three lists. */
  lemma {:induction false} AccountsPartition(rows: seq<AccountRow>)
    ensures multiset(UsersOf(rows, Active)) + multiset(UsersOf(rows, Disabled)) + multiset(UsersOf(rows, Invited))
            == multiset(AllUsers(rows))
    decreases |rows|
  {
    if rows != [] {
      var front, last := rows[..|rows| - 1], rows[|rows| - 1];
      AccountsPartition(front);
      AllUsersSnoc(rows);
      UsersOfSnoc(rows, Active);
      UsersOfSnoc(rows, Disabled);
      UsersOfSnoc(rows, Invited);
      PartitionStep(multiset(UsersOf(front, Active)), multiset(UsersOf(front, Disabled)), multiset(UsersOf(front, Invited)),
                    multiset(AllUsers(front)), last.user, KindOf(last));
    }
  }

  lemma AllUsersSnoc(rows: seq<AccountRow>)
    requires rows != []
    ensures multiset(AllUsers(rows)) == multiset(AllUsers(rows[..|rows| - 1])) + multiset{rows[|rows| - 1].user}
  {
    assert AllUsers(rows) == AllUsers(rows[..|rows| - 1]) + [rows[|rows| - 1].user];
  }

  /** Adding one user to the list of its kind adds it to the union. */
  lemma PartitionStep(a: multiset<User>, d: multiset<User>, i: multiset<User>, all: multiset<User>, u: User, kind: AccountKind)
    requires a + d + i == all
    ensures (a + if kind == Active then multiset{u} else multiset{})
            + (d + if kind == Disabled then multiset{u} else multiset{})
            + (i + if kind == Invited then multiset{u} else multiset{})
            == all + multiset{u}
  {
  }

  /** The last row adds its user to the list of its kind only. */
  lemma UsersOfSnoc(rows: seq<AccountRow>, kind: AccountKind)
    requires rows != []
    ensures multiset(UsersOf(rows, kind))
            == multiset(UsersOf(rows[..|rows| - 1], kind))
               + if KindOf(rows[|rows| - 1]) == kind then multiset{rows[|rows| - 1].user} else multiset{}
  {
  }

  /** A list holds exactly the users of the rows of its kind. */
  lemma {:induction false} AccountsSorted(rows: seq<AccountRow>, kind: AccountKind)
    ensures forall k :: 0 <= k < |rows| && KindOf(rows[k]) == kind ==> rows[k].user in UsersOf(rows, kind)
    ensures forall u :: u in UsersOf(rows, kind) ==> exists k :: 0 <= k < |rows| && rows[k].user == u && KindOf(rows[k]) == kind
    decreases |rows|
  {
    if rows != [] {
      var front := rows[..|rows| - 1];
      AccountsSorted(front, kind);
      forall u | u in UsersOf(rows, kind)
        ensures exists k :: 0 <= k < |rows| && rows[k].user == u && KindOf(rows[k]) == kind
      {
        if u in UsersOf(front, kind) {
          var k :| 0 <= k < |front| && front[k].user == u && KindOf(front[k]) == kind;
          assert rows[k] == front[k];
        }
      }
      forall k | 0 <= k < |rows| && KindOf(rows[k]) == kind
        ensures rows[k].user in UsersOf(rows, kind)
      {
        if k < |front| {
          assert front[k] == rows[k];
        }
      }
    }
  }

  /** get_org_accounts: split the selected rows into active, disabled and invited accounts. */
  method GetOrgAccounts(rows: seq<AccountRow>) returns (active: seq<User>, disabled: seq<User>, invited: seq<User>)
    ensures active == UsersOf(rows, Active)
    ensures disabled == UsersOf(rows, Disabled)
    ensures invited == UsersOf(rows, Invited)
  {
    active, disabled, invited := [], [], [];
    for i := 0 to |rows|
      invariant active == UsersOf(rows[..i], Active)
      invariant disabled == UsersOf(rows[..i], Disabled)
      invariant invited == UsersOf(rows[..i], Invited)
    {
      assert rows[..i + 1][..i] == rows[..i];
      var row := rows[i];
      if Truthy(row.personPeId) {
        if TruthyStr(row.user.registrationKey) {
          disabled := disabled + [row.user];
        } else {
          active := active + [row.user];
        }
      } else {
        invited := invited + [row.user];
      }
    }
    assert rows[..|rows|] == rows;
  }

  // ---------------------------------------------------------------------------
  // assign_pending_invoices

  datatype Billing = Billing(id: int, organisationId: Option<int>)

  datatype Invoice = Invoice(id: int, billingId: Option<int>, status: string, deleted: bool, hrId: Option<int>)

  /** Not paid and not deleted. */
  predicate Pending(inv: Invoice) {
    inv.status != "PAID" && !inv.deleted
  }

  /** The invoice query: the one given invoice, or the invoices of the billing, that are pending. */
  predicate Selected(inv: Invoice, billingId: Option<int>, invoiceId: Option<int>) {
    (if Truthy(invoiceId) then inv.id == invoiceId.value else inv.billingId == billingId) && Pending(inv)
  }

  /** Not yet assigned to one of the accountants in charge. */
  predicate Unassigned(inv: Invoice, accountants: seq<int>) {
    inv.hrId.None? || inv.hrId.value !in accountants
  }

  /** The positions of the selected invoices that may be (re-)assigned, in table order. */
  function Candidates(invoices: seq<Invoice>, billingId: Option<int>, invoiceId: Option<int>, accountants: seq<int>): (ks: seq<nat>)
    ensures forall i :: 0 <= i < |ks| ==> ks[i] < |invoices|
    ensures forall i, j :: 0 <= i < j < |ks| ==> ks[i] < ks[j]
    ensures forall k :: 0 <= k < |invoices| ==>
              (k in ks <==> Selected(invoices[k], billingId, invoiceId) && Unassigned(invoices[k], accountants))
    decreases |invoices|
  {
    if invoices == [] then []
    else
      var n := |invoices| - 1;
      var front := Candidates(invoices[..n], billingId, invoiceId, accountants);
      assert forall k :: 0 <= k < n ==> invoices[..n][k] == invoices[k];
      front + (if Selected(invoices[n], billingId, invoiceId) && Unassigned(invoices[n], accountants) then [n] else [])
  }

  /** Each accountant's number of pending invoices assigned to them. */
  function InitialWorkload(invoices: seq<Invoice>, keys: seq<int>): (w: seq<nat>)
    ensures |w| == |keys|
    ensures forall i :: 0 <= i < |keys| ==> w[i] == CountIf(invoices, (inv: Invoice) => Pending(inv) && inv.hrId == Some(keys[i]))
  {
    seq(|keys|, i requires 0 <= i < |keys| => CountIf(invoices, (inv: Invoice) => Pending(inv) && inv.hrId == Some(keys[i])))
  }

  /** The first accountant with the smallest workload (`min` over the dict items). */
  function ArgMin(w: seq<nat>): (j: nat)
    requires |w| > 0
    ensures j < |w|
    ensures forall i :: 0 <= i < |w| ==> w[j] <= w[i]
    ensures forall i :: 0 <= i < j ==> w[i] > w[j]
    decreases |w|
  {
    if |w| == 1 then 0
    else
      var k := ArgMin(w[..|w| - 1]);
      assert forall i :: 0 <= i < |w| - 1 ==> w[..|w| - 1][i] == w[i];
      if w[|w| - 1] < w[k] then |w| - 1 else k
  }

  function Sum(w: seq<nat>): nat
    decreases |w|
  {
    if w == [] then 0 else Sum(w[..|w| - 1]) + w[|w| - 1]
  }

  /** The assignment loop: each candidate goes to a least-loaded accountant, whose workload grows by one. */
  function AssignFrom(invoices: seq<Invoice>, cands: seq<nat>, keys: seq<int>, w: seq<nat>): (seq<Invoice>, seq<nat>)
    requires |w| == |keys| > 0
    requires forall i :: 0 <= i < |cands| ==> cands[i] < |invoices|
    decreases |cands|
  {
    if cands == [] then (invoices, w)
    else
      var j := ArgMin(w);
      var k := cands[0];
      AssignFrom(invoices[k := invoices[k].(hrId := Some(keys[j]))], cands[1..], keys, w[j := w[j] + 1])
  }

  /** The billing's accountant organisation; None when the billing must be looked up and does not exist. */
  function AccountantOrg(billings: seq<Billing>, billingId: Option<int>, organisationId: Option<int>): Option<Option<int>> {
    if Truthy(organisationId) then Some(organisationId)
    else
      match FirstIndex(billings, (b: Billing) => Some(b.id) == billingId)
      case None => None
      case Some(k) => Some(billings[k].organisationId)
  }

  /** get_role_hrs("PROGRAM_ACCOUNTANT", ...) for a truthy organisation, else no accountants. */
  function Accountants(org: Option<int>, roleHrs: int -> seq<int>): seq<int> {
    if Truthy(org) then roleHrs(org.value) else []
  }

  /** The invoice table after assign_pending_invoices. */
  function AssignPendingSpec(billings: seq<Billing>, invoices: seq<Invoice>, billingId: Option<int>,
                             organisationId: Option<int>, invoiceId: Option<int>, roleHrs: int -> seq<int>): seq<Invoice>
  {
    match AccountantOrg(billings, billingId, organisationId)
    case None => invoices
    case Some(org) =>
      var accountants := Accountants(org, roleHrs);
      if accountants != [] then
        var cands := Candidates(invoices, billingId, invoiceId, accountants);
        var keys := Distinct(accountants);
        if cands == [] then invoices
        else AssignFrom(invoices, cands, keys, InitialWorkload(invoices, keys)).0
      else if !Truthy(invoiceId) then
        Unassign(invoices, billingId)
      else invoices
  }

  /** `db(query).update(human_resource_id=None)` on the pending invoices of the billing. */
  function Unassign(invoices: seq<Invoice>, billingId: Option<int>): (r: seq<Invoice>)
    ensures |r| == |invoices|
    ensures forall k :: 0 <= k < |r| && Selected(invoices[k], billingId, None) ==> r[k].hrId.None?
    ensures forall k :: 0 <= k < |r| ==> r[k].(hrId := invoices[k].hrId) == invoices[k]
    ensures forall k :: 0 <= k < |r| && !Selected(invoices[k], billingId, None) ==> r[k] == invoices[k]
  {
    seq(|invoices|, k requires 0 <= k < |invoices| =>
      if Selected(invoices[k], billingId, None) then invoices[k].(hrId := None) else invoices[k])
  }

  /** Every step adds exactly one to the total workload. */
  lemma {:induction false} AssignFromSum(invoices: seq<Invoice>, cands: seq<nat>, keys: seq<int>, w: seq<nat>)
    requires |w| == |keys| > 0
    requires forall i :: 0 <= i < |cands| ==> cands[i] < |invoices|
    ensures var (_, w') := AssignFrom(invoices, cands, keys, w);
            |w'| == |w| && Sum(w') == Sum(w) + |cands|
    decreases |cands|
  {
    if cands != [] {
      var j := ArgMin(w);
      var k := cands[0];
      SumIncrement(w, j);
      AssignFromSum(invoices[k := invoices[k].(hrId := Some(keys[j]))], cands[1..], keys, w[j := w[j] + 1]);
    }
  }

  lemma {:induction false} SumIncrement(w: seq<nat>, j: nat)
    requires j < |w|
    ensures Sum(w[j := w[j] + 1]) == Sum(w) + 1
    decreases |w|
  {
    var n := |w| - 1;
    var w' := w[j := w[j] + 1];
    assert w'[..n] == if j < n then w[..n][j := w[j] + 1] else w[..n];
    if j < n {
      SumIncrement(w[..n], j);
    }
  }

  /** Workloads that differ by at most one stay that way after every step. */
  ghost predicate Balanced(w: seq<nat>) {
    forall a, b :: 0 <= a < |w| && 0 <= b < |w| ==> w[a] <= w[b] + 1
  }

  lemma {:induction false} AssignFromBalanced(invoices: seq<Invoice>, cands: seq<nat>, keys: seq<int>, w: seq<nat>)
    requires |w| == |keys| > 0
    requires forall i :: 0 <= i < |cands| ==> cands[i] < |invoices|
    requires Balanced(w)
    ensures Balanced(AssignFrom(invoices, cands, keys, w).1)
    decreases |cands|
  {
    if cands != [] {
      var j := ArgMin(w);
      var k := cands[0];
      var w' := w[j := w[j] + 1];
      assert Balanced(w') by {
        forall a, b | 0 <= a < |w'| && 0 <= b < |w'| ensures w'[a] <= w'[b] + 1 {
          assert w[j] <= w[b];
        }
      }
      AssignFromBalanced(invoices[k := invoices[k].(hrId := Some(keys[j]))], cands[1..], keys, w');
    }
  }

  /**
   * Candidates end up assigned to one of the accountants; every other
   * invoice, and every other field, is unchanged.
   */
  lemma {:induction false} AssignFromTargets(invoices: seq<Invoice>, cands: seq<nat>, keys: seq<int>, w: seq<nat>)
    requires |w| == |keys| > 0
    requires forall i :: 0 <= i < |cands| ==> cands[i] < |invoices|
    ensures var (r, _) := AssignFrom(invoices, cands, keys, w);
            && |r| == |invoices|
            && (forall k :: 0 <= k < |r| ==> r[k] == invoices[k].(hrId := r[k].hrId))
            && (forall k :: 0 <= k < |r| && k in cands ==> r[k].hrId.Some? && r[k].hrId.value in keys)
            && (forall k :: 0 <= k < |r| && k !in cands ==> r[k] == invoices[k])
    decreases |cands|
  {
    if cands != [] {
      var j := ArgMin(w);
      var k := cands[0];
      var next := invoices[k := invoices[k].(hrId := Some(keys[j]))];
      AssignFromTargets(next, cands[1..], keys, w[j := w[j] + 1]);
      var r := AssignFrom(invoices, cands, keys, w).0;
      forall m | 0 <= m < |r| && m in cands ensures r[m].hrId.Some? && r[m].hrId.value in keys {
        if m !in cands[1..] {
          assert m == k;
        }
      }
      forall m | 0 <= m < |r| && m !in cands ensures r[m] == invoices[m] {
        assert m !in cands[1..];
      }
    }
  }

  /**
   * The edge cases of assign_pending_invoices: nothing changes without a
   * billing to look up, or without accountants when one invoice is given;
   * without accountants and without an invoice, the pending invoices of the
   * billing are unassigned.
   */
  lemma AssignPendingEdges(billings: seq<Billing>, invoices: seq<Invoice>, billingId: Option<int>,
                           organisationId: Option<int>, invoiceId: Option<int>, roleHrs: int -> seq<int>)
    ensures var r := AssignPendingSpec(billings, invoices, billingId, organisationId, invoiceId, roleHrs);
            && (!Truthy(organisationId) && (forall b :: b in billings ==> Some(b.id) != billingId) ==> r == invoices)
            && (AccountantOrg(billings, billingId, organisationId).Some? &&
                Accountants(AccountantOrg(billings, billingId, organisationId).value, roleHrs) == [] ==>
                  r == if Truthy(invoiceId) then invoices else Unassign(invoices, billingId))
  {
    if !Truthy(organisationId) && (forall b :: b in billings ==> Some(b.id) != billingId) {
      forall j | 0 <= j < |billings| ensures Some(billings[j].id) != billingId {
        assert billings[j] in billings;
      }
    }
  }

  /**
   * With accountants, the invoices that change are exactly the selected,
   * not yet assigned ones, and each goes to an accountant; the workloads
   * start at each accountant's pending count, grow by the number of
   * candidates in total, and stay within one of each other if they were.
   */
  lemma AssignPendingWithAccountants(billings: seq<Billing>, invoices: seq<Invoice>, billingId: Option<int>,
                                     organisationId: Option<int>, invoiceId: Option<int>, roleHrs: int -> seq<int>)
    requires AccountantOrg(billings, billingId, organisationId).Some?
    requires Accountants(AccountantOrg(billings, billingId, organisationId).value, roleHrs) != []
    ensures var accountants := Accountants(AccountantOrg(billings, billingId, organisationId).value, roleHrs);
            var r := AssignPendingSpec(billings, invoices, billingId, organisationId, invoiceId, roleHrs);
            && |r| == |invoices|
            && (forall k :: 0 <= k < |r| ==> r[k] == invoices[k].(hrId := r[k].hrId))
            && forall k :: 0 <= k < |r| ==>
                 if Selected(invoices[k], billingId, invoiceId) && Unassigned(invoices[k], accountants)
                 then r[k].hrId.Some? && r[k].hrId.value in accountants
                 else r[k] == invoices[k]
    ensures var accountants := Accountants(AccountantOrg(billings, billingId, organisationId).value, roleHrs);
            var keys := Distinct(accountants);
            var cands := Candidates(invoices, billingId, invoiceId, accountants);
            var w := InitialWorkload(invoices, keys);
            var w' := AssignFrom(invoices, cands, keys, w).1;
            Sum(w') == Sum(w) + |cands| && (Balanced(w) ==> Balanced(w'))
  {
    var accountants := Accountants(AccountantOrg(billings, billingId, organisationId).value, roleHrs);
    var keys := Distinct(accountants);
    assert accountants[0] in keys;
    var cands := Candidates(invoices, billingId, invoiceId, accountants);
    var w := InitialWorkload(invoices, keys);
    AssignFromTargets(invoices, cands, keys, w);
    AssignFromSum(invoices, cands, keys, w);
    if Balanced(w) {
      AssignFromBalanced(invoices, cands, keys, w);
    }
  }

  /** The invoice table, updated in place. */
  class InvoiceDb {
    var billings: seq<Billing>
    var invoices: seq<Invoice>

    constructor (billings: seq<Billing>, invoices: seq<Invoice>)
      ensures this.billings == billings && this.invoices == invoices
    {
      this.billings := billings;
      this.invoices := invoices;
    }

    /** The re-assignment loop: each candidate invoice goes to the first least-loaded accountant. */
    method AssignCandidates(cands: seq<nat>, keys: seq<int>, workload0: seq<nat>)
      requires |workload0| == |keys| > 0
      requires forall i :: 0 <= i < |cands| ==> cands[i] < |invoices|
      modifies this
      ensures billings == old(billings)
      ensures invoices == AssignFrom(old(invoices), cands, keys, workload0).0
    {
      var workload := workload0;
      var i := 0;
      while i < |cands|
        invariant 0 <= i <= |cands|
        invariant billings == old(billings)
        invariant |invoices| == |old(invoices)| && |workload| == |keys|
        invariant AssignFrom(invoices, cands[i..], keys, workload) == AssignFrom(old(invoices), cands, keys, workload0)
      {
        assert cands[i..][1..] == cands[i + 1..];
        var hr := ArgMin(workload);
        var k := cands[i];
        invoices := invoices[k := invoices[k].(hrId := Some(keys[hr]))];
        workload := workload[hr := workload[hr] + 1];
        i := i + 1;
      }
    }

    /** assign_pending_invoices; `roleHrs` stands for get_role_hrs("PROGRAM_ACCOUNTANT", ...). */
    method AssignPendingInvoices(billingId: Option<int>, organisationId: Option<int>, invoiceId: Option<int>,
                                 roleHrs: int -> seq<int>)
      modifies this
      ensures billings == old(billings)
      ensures invoices == AssignPendingSpec(billings, old(invoices), billingId, organisationId, invoiceId, roleHrs)
    {
      var org := organisationId;
      if !Truthy(organisationId) {
        var k := FirstIndex(billings, (b: Billing) => Some(b.id) == billingId);
        if k.None? {
          return;
        }
        org := billings[k.value].organisationId;
      }
      var accountants := Accountants(org, roleHrs);
      if accountants != [] {
        var cands := Candidates(invoices, billingId, invoiceId, accountants);
        if cands == [] {
          return;
        }
        var keys := Distinct(accountants);
        assert accountants[0] in keys;
        AssignCandidates(cands, keys, InitialWorkload(invoices, keys));
      } else if !Truthy(invoiceId) {
        invoices := Unassign(invoices, billingId);
      }
    }
  }

  // ---------------------------------------------------------------------------
  // can_cancel_debit

  /** The logged-in user: their pe_id and, per role id, the realms (None for site-wide). */
  datatype AuthUser = AuthUser(peId: Option<int>, realms: map<int, Option<seq<int>>>)

  /** The realms checked for the role: the assigned ones, or the user's own when there are none. */
  function RoleRealms(user: AuthUser, roleId: int, prRealm: Option<int> -> seq<int>): seq<int>
    requires roleId in user.realms
  {
    var granted := user.realms[roleId];
    if granted.None? || granted.value == [] then prRealm(user.peId) else granted.value
  }

  /**
   * can_cancel_debit: `roleId` is the VOUCHER_PROVIDER role row (None if
   * missing), `prRealm` stands for pr_realm.
   */
  function CanCancelDebit(user: Option<AuthUser>, roleId: Option<int>, prRealm: Option<int> -> seq<int>,
                          debitPeId: Option<int>): (r: bool)
    ensures r ==> user.Some? && roleId.Some? && roleId.value in user.value.realms && debitPeId.Some?
    ensures user.Some? && roleId.Some? && roleId.value in user.value.realms ==>
              (r <==> debitPeId.Some? && debitPeId.value in RoleRealms(user.value, roleId.value, prRealm))
  {
    match user
    case None => false
    case Some(u) =>
      match roleId
      case None => false
      case Some(role) =>
        if role !in u.realms then false
        else
          var realms := RoleRealms(u, role, prRealm);
          debitPeId.Some? && debitPeId.value in realms
  }

  /** With realms assigned for the role, the user's own realms play no part. */
  lemma AssignedRealmsDecide(u: AuthUser, roleId: int, prRealm: Option<int> -> seq<int>,
                             prRealm': Option<int> -> seq<int>, debitPeId: Option<int>)
    requires roleId in u.realms && u.realms[roleId].Some? && u.realms[roleId].value != []
    ensures CanCancelDebit(Some(u), Some(roleId), prRealm, debitPeId) ==
            CanCancelDebit(Some(u), Some(roleId), prRealm', debitPeId)
    ensures CanCancelDebit(Some(u), Some(roleId), prRealm, debitPeId) <==>
            debitPeId.Some? && debitPeId.value in u.realms[roleId].value
  {
  }

  /** A site-wide (or empty) role grants cancellation only within the user's own realms. */
  lemma SiteWideNeedsAffiliation(u: AuthUser, roleId: int, prRealm: Option<int> -> seq<int>, debitPeId: Option<int>)
    requires roleId in u.realms && (u.realms[roleId].None? || u.realms[roleId].value == [])
    ensures CanCancelDebit(Some(u), Some(roleId), prRealm, debitPeId) <==>
            debitPeId.Some? && debitPeId.value in prRealm(u.peId)
  {
  }

  // ---------------------------------------------------------------------------
  // Default tags

  datatype Organisation = Organisation(id: int, uuid: Option<string>)

  datatype OrgTag = OrgTag(organisationId: int, tag: string, value: Option<string>, deleted: bool)

  datatype Facility = Facility(id: int, siteId: int)

  datatype SiteTag = SiteTag(siteId: int, tag: string, value: Option<string>, deleted: bool)

  predicate HasOrgTag(tags: seq<OrgTag>, organisationId: int, tag: string) {
    exists i :: 0 <= i < |tags| && tags[i].organisationId == organisationId && tags[i].tag == tag && !tags[i].deleted
  }

  predicate HasSiteTag(tags: seq<SiteTag>, siteId: int, tag: string) {
    exists i :: 0 <= i < |tags| && tags[i].siteId == siteId && tags[i].tag == tag && !tags[i].deleted
  }

  /**
   * `int(uuid[9:14], 16)`, falling back to the same digits of a random
   * uuid (`randomUid`) on a missing uuid or a slice that is not hex. The
   * slice may carry a sign, so the uid can be negative.
   */
  function OrgUid(uuid: Option<string>, randomUid: nat): (uid: int)
    ensures uuid.Some? && ParseHex(Slice(uuid.value, 9, 14)).Some? ==> uid == ParseHex(Slice(uuid.value, 9, 14)).value
    ensures uuid.None? || ParseHex(Slice(uuid.value, 9, 14)).None? ==> uid == randomUid
    ensures randomUid < Pow16(5) ==> HexRange(uid, 5)
    ensures uid < 0 ==> HexRange(uid, 4)
  {
    match uuid
    case None => randomUid
    case Some(u) =>
      var s := Slice(u, 9, 14);
      assert |s| <= 5 by {
        assert |s| <= if 14 - 9 < |u| then 5 else |u|;
      }
      match ParseHex(s)
      case None => randomUid
      case Some(v) =>
        assert ParseStripped(Strip(s)) == Some(v);
        ParseStrippedWithin(Strip(s), v, 5);
        v
  }

  /** The OrgID tag value `"%06d%04d" % (uid, id)`. */
  function OrgIdValue(uid: int, id: int): string {
    FormatInt(uid, 6) + FormatInt(id, 4)
  }

  /** A string of at least four decimal digits split before its last four. */
  function SplitDigits(w: string): (r: Option<(nat, nat)>)
    ensures r.Some? ==> |w| >= 4
  {
    if |w| >= 4 && forall i :: 0 <= i < |w| ==> IsDigit(w[i]) then
      Some((DecimalValue(w[..|w| - 4]), DecimalValue(w[|w| - 4..])))
    else None
  }

  /**
   * Read an OrgID back: an optional minus sign, then digits whose last
   * four are the record id and the rest the uid.
   */
  function DecodeOrgId(v: string): (r: Option<(int, nat)>)
    ensures r.Some? ==> |v| >= 10
  {
    if |v| < 10 then None
    else if v[0] == '-' then
      match SplitDigits(v[1..])
      case None => None
      case Some(p) => Some((-(p.0 as int), p.1))
    else
      match SplitDigits(v)
      case None => None
      case Some(p) => Some((p.0 as int, p.1))
  }

  /** Padded digits followed by a four-digit id split back into their values. */
  lemma SplitDigitsRoundTrip(x: nat, w: nat, id: int)
    requires 0 <= id < 10000
    ensures SplitDigits(FormatInt(x, w) + FormatInt(id, 4)) == Some((x, id as nat))
  {
    var a := FormatInt(x, w);
    var b := FormatInt(id, 4);
    var v := a + b;
    assert Pow10(4) == 10000 by {
      assert Pow10(1) == 10 && Pow10(2) == 100 && Pow10(3) == 1000;
    }
    FormatIntWidth(id, 4);
    FormatIntValue(x, w);
    FormatIntValue(id, 4);
    assert v[..|v| - 4] == a && v[|v| - 4..] == b;
    assert forall i :: 0 <= i < |v| ==> IsDigit(v[i]) by {
      forall i | 0 <= i < |v| ensures IsDigit(v[i]) {
        if i < |a| { assert v[i] == a[i]; } else { assert v[i] == b[i - |a|]; }
      }
    }
  }

  /**
   * For record ids below 10000 the OrgID decodes to its parts. The value
   * has 10 or 11 characters for a uid below 16^5, and 10 for a negative
   * uid above -16^4 (the sign counts toward the width of six).
   */
  lemma OrgIdRoundTrip(uid: int, id: int)
    requires 0 <= id < 10000
    ensures DecodeOrgId(OrgIdValue(uid, id)) == Some((uid, id as nat))
    ensures 0 <= uid < Pow16(5) ==> |OrgIdValue(uid, id)| == 10 || |OrgIdValue(uid, id)| == 11
    ensures -(Pow16(4) as int) < uid < 0 ==> |OrgIdValue(uid, id)| == 10
  {
    if uid >= 0 {
      OrgIdRoundTripUnsigned(uid, id);
    } else {
      OrgIdRoundTripSigned(uid, id);
    }
  }

  lemma OrgIdRoundTripUnsigned(uid: nat, id: int)
    requires 0 <= id < 10000
    ensures DecodeOrgId(OrgIdValue(uid, id)) == Some((uid as int, id as nat))
    ensures uid < Pow16(5) ==> |OrgIdValue(uid, id)| == 10 || |OrgIdValue(uid, id)| == 11
  {
    var v := OrgIdValue(uid, id);
    FormatIntWidth(id, 4);
    SplitDigitsRoundTrip(uid, 6, id);
    assert v[0] != '-' by {
      assert IsDigit(FormatInt(uid, 6)[0]);
    }
    if uid < Pow16(5) {
      OrgUidWidth(uid);
    }
  }

  /** A negative uid is printed as a minus sign and five padded digits. */
  lemma OrgIdRoundTripSigned(uid: int, id: int)
    requires uid < 0 && 0 <= id < 10000
    ensures DecodeOrgId(OrgIdValue(uid, id)) == Some((uid, id as nat))
    ensures -(Pow16(4) as int) < uid ==> |OrgIdValue(uid, id)| == 10
  {
    var m: nat := -uid;
    var w := FormatInt(m, 5) + FormatInt(id, 4);
    FormatIntNegative(uid, 6);
    assert OrgIdValue(uid, id) == "-" + w;
    FormatIntWidth(id, 4);
    SplitDigitsRoundTrip(m, 5, id);
    DecodeSigned(w, m, id as nat);
    if uid > -(Pow16(4) as int) {
      SignedWidth(m);
    }
  }

  /** A minus sign in front of split digits negates the uid read back. */
  lemma DecodeSigned(w: string, x: nat, id: nat)
    requires |w| >= 9 && SplitDigits(w) == Some((x, id))
    ensures DecodeOrgId("-" + w) == Some((-(x as int), id)) && |"-" + w| == |w| + 1
  {
    assert ("-" + w)[1..] == w;
  }

  /** A magnitude below 16^4 fits the five padded digits after the sign. */
  lemma SignedWidth(m: nat)
    requires m < Pow16(4)
    ensures |FormatInt(m, 5)| == 5
  {
    assert Pow16(4) == 65536 && Pow10(5) == 100000 by {
      assert Pow16(1) == 16 && Pow16(2) == 256 && Pow16(3) == 4096;
      assert Pow10(1) == 10 && Pow10(2) == 100 && Pow10(3) == 1000 && Pow10(4) == 10000;
    }
    FormatIntWidth(m, 5);
  }

  /** A uid below 16^5 prints as six or seven digits. */
  lemma OrgUidWidth(uid: nat)
    requires uid < Pow16(5)
    ensures |FormatInt(uid, 6)| == 6 || |FormatInt(uid, 6)| == 7
  {
    assert Pow16(5) == 1048576 by {
      assert Pow16(1) == 16 && Pow16(2) == 256 && Pow16(3) == 4096 && Pow16(4) == 65536;
    }
    assert Pow10(7) == 10000000 && Pow10(6) == 1000000 by {
      assert Pow10(1) == 10 && Pow10(2) == 100 && Pow10(3) == 1000;
      assert Pow10(4) == 10000 && Pow10(5) == 100000;
    }
    if uid < Pow10(6) {
      FormatIntWidth(uid, 6);
    } else {
      DigitsLength(uid, 7);
      LengthBound(uid, 6);
    }
  }

  /** A numeral of at most k digits is below 10^k. */
  lemma LengthBound(x: nat, k: nat)
    ensures |Digits(x)| <= k ==> x < Pow10(k)
  {
    DigitsRoundTrip(x);
    NumeralBound(Digits(x));
    if |Digits(x)| <= k {
      PowTenMonotone(|Digits(x)|, k);
    }
  }

  lemma {:induction false} NumeralBound(s: string)
    requires forall i :: 0 <= i < |s| ==> IsDigit(s[i])
    ensures DecimalValue(s) < Pow10(|s|)
    decreases |s|
  {
    if |s| > 0 {
      NumeralBound(s[..|s| - 1]);
      assert DecimalValue(s) == DecimalValue(s[..|s| - 1]) * 10 + (s[|s| - 1] as int - '0' as int);
    }
  }

  lemma {:induction false} PowTenMonotone(a: nat, b: nat)
    requires a <= b
    ensures Pow10(a) <= Pow10(b)
    decreases b
  {
    if a < b {
      PowTenMonotone(a, b - 1);
    }
  }

  /** The tag rows add_organisation_default_tags inserts for an existing organisation. */
  function OrgDefaultTags(tags: seq<OrgTag>, org: Organisation, randomUid: nat): seq<OrgTag> {
    (if HasOrgTag(tags, org.id, "REQUESTER") then [] else [OrgTag(org.id, "REQUESTER", Some("N"), false)]) +
    (if HasOrgTag(tags, org.id, "OrgID") then []
     else [OrgTag(org.id, "OrgID", Some(OrgIdValue(OrgUid(org.uuid, randomUid), org.id)), false)])
  }

  /** The tag rows add_facility_default_tags inserts for an existing facility. */
  function FacilityDefaultTags(tags: seq<SiteTag>, facility: Facility, approve: bool): seq<SiteTag> {
    if HasSiteTag(tags, facility.siteId, "PUBLIC") then []
    else [SiteTag(facility.siteId, "PUBLIC", Some(if approve then "Y" else "N"), false)]
  }

  /**
   * After the insert the organisation has both tags, the REQUESTER tag
   * inserted is "N", and a second call inserts nothing.
   */
  lemma OrgDefaultTagsEffect(tags: seq<OrgTag>, org: Organisation, randomUid: nat)
    ensures var added := OrgDefaultTags(tags, org, randomUid);
            && HasOrgTag(tags + added, org.id, "REQUESTER")
            && HasOrgTag(tags + added, org.id, "OrgID")
            && |added| == (if HasOrgTag(tags, org.id, "REQUESTER") then 0 else 1) + (if HasOrgTag(tags, org.id, "OrgID") then 0 else 1)
            && (forall t :: t in added ==> t.organisationId == org.id && !t.deleted)
            && (forall t :: t in added && t.tag == "REQUESTER" ==> t.value == Some("N"))
            && OrgDefaultTags(tags + added, org, randomUid) == []
  {
    var added := OrgDefaultTags(tags, org, randomUid);
    OrgTagKept(tags, added, org.id, "REQUESTER");
    OrgTagKept(tags, added, org.id, "OrgID");
    if !HasOrgTag(tags, org.id, "REQUESTER") {
      OrgTagAdded(tags, added, 0, org.id, "REQUESTER");
    }
    if !HasOrgTag(tags, org.id, "OrgID") {
      OrgTagAdded(tags, added, |added| - 1, org.id, "OrgID");
    }
  }

  /** A tag present before an append is present after it. */
  lemma OrgTagKept(tags: seq<OrgTag>, added: seq<OrgTag>, organisationId: int, tag: string)
    ensures HasOrgTag(tags, organisationId, tag) ==> HasOrgTag(tags + added, organisationId, tag)
  {
    if HasOrgTag(tags, organisationId, tag) {
      var i :| 0 <= i < |tags| && tags[i].organisationId == organisationId && tags[i].tag == tag && !tags[i].deleted;
      assert (tags + added)[i] == tags[i];
    }
  }

  /** A live appended row gives the tag. */
  lemma OrgTagAdded(tags: seq<OrgTag>, added: seq<OrgTag>, k: nat, organisationId: int, tag: string)
    requires k < |added| && added[k].organisationId == organisationId && added[k].tag == tag && !added[k].deleted
    ensures HasOrgTag(tags + added, organisationId, tag)
  {
    assert (tags + added)[|tags| + k] == added[k];
  }

  /** After the insert the facility has a PUBLIC tag, "Y" iff approved when it is new, and a second call inserts nothing. */
  lemma FacilityDefaultTagsEffect(tags: seq<SiteTag>, facility: Facility, approve: bool)
    ensures var added := FacilityDefaultTags(tags, facility, approve);
            && HasSiteTag(tags + added, facility.siteId, "PUBLIC")
            && (HasSiteTag(tags, facility.siteId, "PUBLIC") <==> added == [])
            && (forall t :: t in added ==> t == SiteTag(facility.siteId, "PUBLIC", Some(if approve then "Y" else "N"), false))
            && FacilityDefaultTags(tags + added, facility, approve) == []
  {
    var added := FacilityDefaultTags(tags, facility, approve);
    var all := tags + added;
    if !HasSiteTag(tags, facility.siteId, "PUBLIC") {
      assert all[|tags|] == added[0];
    } else {
      var i :| 0 <= i < |tags| && tags[i].siteId == facility.siteId && tags[i].tag == "PUBLIC" && !tags[i].deleted;
      assert all[i] == tags[i];
    }
  }

  /** The organisation, facility and tag tables, updated in place. */
  class TagDb {
    var organisations: seq<Organisation>
    var orgTags: seq<OrgTag>
    var facilities: seq<Facility>
    var siteTags: seq<SiteTag>

    constructor (organisations: seq<Organisation>, orgTags: seq<OrgTag>, facilities: seq<Facility>, siteTags: seq<SiteTag>)
      ensures this.organisations == organisations && this.orgTags == orgTags
      ensures this.facilities == facilities && this.siteTags == siteTags
    {
      this.organisations := organisations;
      this.orgTags := orgTags;
      this.facilities := facilities;
      this.siteTags := siteTags;
    }

    /** add_organisation_default_tags; `randomUid` stands for the digits of a fresh uuid4. */
    method AddOrganisationDefaultTags(organisationId: int, randomUid: nat)
      modifies this
      ensures organisations == old(organisations) && facilities == old(facilities) && siteTags == old(siteTags)
      ensures var k := FirstIndex(organisations, (o: Organisation) => o.id == organisationId);
              orgTags == old(orgTags) + if k.Some? then OrgDefaultTags(old(orgTags), organisations[k.value], randomUid) else []
    {
      var k := FirstIndex(organisations, (o: Organisation) => o.id == organisationId);
      if k.None? {
        return;
      }
      var org := organisations[k.value];
      var hasRequester := HasOrgTag(orgTags, org.id, "REQUESTER");
      var hasOrgId := HasOrgTag(orgTags, org.id, "OrgID");
      ghost var tags0 := orgTags;
      if !hasRequester {
        orgTags := orgTags + [OrgTag(org.id, "REQUESTER", Some("N"), false)];
      }
      if !hasOrgId {
        var uid := OrgUid(org.uuid, randomUid);
        orgTags := orgTags + [OrgTag(org.id, "OrgID", Some(OrgIdValue(uid, org.id)), false)];
      }
      assert orgTags == tags0 + OrgDefaultTags(tags0, org, randomUid);
    }

    /** add_facility_default_tags. */
    method AddFacilityDefaultTags(facilityId: int, approve: bool)
      modifies this
      ensures organisations == old(organisations) && facilities == old(facilities) && orgTags == old(orgTags)
      ensures var k := FirstIndex(facilities, (f: Facility) => f.id == facilityId);
              siteTags == old(siteTags) + if k.Some? then FacilityDefaultTags(old(siteTags), facilities[k.value], approve) else []
    {
      var k := FirstIndex(facilities, (f: Facility) => f.id == facilityId);
      if k.None? {
        return;
      }
      var facility := facilities[k.value];
      if !HasSiteTag(siteTags, facility.siteId, "PUBLIC") {
        siteTags := siteTags + [SiteTag(facility.siteId, "PUBLIC", Some(if approve then "Y" else "N"), false)];
      }
    }
  }
}
