/**
 * RLPPTM upgrade 1.5.4 => 1.6.0: voucher program balances are corrected
 * from their transactions, missing OrgID tags are installed, test station
 * facilities without a PUBLIC tag are made public, and the user roles are
 * re-imported. A failed PUBLIC insert or role import rolls everything back.
 */
module Upgrade154 {
  import opened Wrappers
  import opened Helpers
  import opened Migration

  /** A fin_voucher_program row; `modifiedOn` is the meta field `update_record` stamps. */
  datatype Program = Program(id: int, credit: Option<int>, compensation: Option<int>, deleted: bool, modifiedOn: int)

  /** A fin_voucher_transaction row. */
  datatype Transaction = Transaction(programId: int, credit: Option<int>, compensation: Option<int>, deleted: bool)

  /** SQL SUM over a nullable column: NULLs are skipped, and the sum is NULL when no value is left. */
  function SqlSum(xs: seq<Option<int>>): (r: Option<int>)
    ensures r.None? <==> forall i :: 0 <= i < |xs| ==> xs[i].None?
  {
    if xs == [] then None
    else
      var rest := SqlSum(xs[..|xs| - 1]);
      var x := xs[|xs| - 1];
      if x.None? then rest
      else if rest.None? then x
      else Some(rest.value + x.value)
  }

  /** The plain total of the values present, NULLs counting as nothing. */
  function Total(xs: seq<Option<int>>): int {
    if xs == [] then 0 else (if xs[0].Some? then xs[0].value else 0) + Total(xs[1..])
  }

  lemma {:induction false} TotalSnoc(xs: seq<Option<int>>, x: Option<int>)
    ensures Total(xs + [x]) == Total(xs) + if x.Some? then x.value else 0
  {
    if xs != [] {
      assert (xs + [x])[1..] == xs[1..] + [x];
      TotalSnoc(xs[1..], x);
    } else {
      assert (xs + [x])[1..] == [];
    }
  }

  lemma {:induction false} TotalOfNulls(xs: seq<Option<int>>)
    requires forall i :: 0 <= i < |xs| ==> xs[i].None?
    ensures Total(xs) == 0
  {
    if xs != [] {
      TotalOfNulls(xs[1..]);
    }
  }

  /** SUM is the total of the values present, or NULL when there are none. */
  lemma {:induction false} SqlSumTotal(xs: seq<Option<int>>)
    ensures SqlSum(xs) == if forall i :: 0 <= i < |xs| ==> xs[i].None? then None else Some(Total(xs))
  {
    if xs != [] {
      var n := |xs| - 1;
      SqlSumTotal(xs[..n]);
      assert xs == xs[..n] + [xs[n]];
      TotalSnoc(xs[..n], xs[n]);
      if SqlSum(xs[..n]).None? {
        TotalOfNulls(xs[..n]);
      }
    }
  }

  /** The live transactions of program `programId`. */
  function Ledger(txs: seq<Transaction>, programId: int): seq<Transaction> {
    Filter(txs, (t: Transaction) => t.programId == programId && !t.deleted)
  }

  /** `ttable.credit.sum()` over the program's live transactions. */
  function CreditBalance(txs: seq<Transaction>, programId: int): Option<int> {
    var l := Ledger(txs, programId);
    SqlSum(seq(|l|, i requires 0 <= i < |l| => l[i].credit))
  }

  /** `ttable.compensation.sum()` over the program's live transactions. */
  function CompensationBalance(txs: seq<Transaction>, programId: int): Option<int> {
    var l := Ledger(txs, programId);
    SqlSum(seq(|l|, i requires 0 <= i < |l| => l[i].compensation))
  }

  /** One program after the balance check: differing balances are written, which stamps `modifiedOn`. */
  function Reconcile(p: Program, txs: seq<Transaction>, now: int): Program {
    var c := CreditBalance(txs, p.id);
    var k := CompensationBalance(txs, p.id);
    if p.credit != c || p.compensation != k then p.(credit := c, compensation := k, modifiedOn := now) else p
  }

  /**
   * A reconciled program carries the sums of its transactions; it is left
   * untouched exactly when both balances already matched, and a second
   * check changes nothing.
   */
  lemma ReconcileEffect(p: Program, txs: seq<Transaction>, now: int)
    ensures var r := Reconcile(p, txs, now);
            && r.credit == CreditBalance(txs, p.id)
            && r.compensation == CompensationBalance(txs, p.id)
            && r == p.(credit := r.credit, compensation := r.compensation, modifiedOn := r.modifiedOn)
            && (r == p <==> p.credit == CreditBalance(txs, p.id) && p.compensation == CompensationBalance(txs, p.id))
            && Reconcile(r, txs, now) == r
  {
  }

  /** The program table after "Fix voucher program balances": every live program reconciled. */
  function FixedPrograms(programs: seq<Program>, txs: seq<Transaction>, now: int): (r: seq<Program>)
    ensures |r| == |programs|
  {
    seq(|programs|, j requires 0 <= j < |programs| =>
      if programs[j].deleted then programs[j] else Reconcile(programs[j], txs, now))
  }

  /** A row of the PUBLIC-tag selection: a test station facility and its PUBLIC tag id, if any. */
  datatype PublicRow = PublicRow(siteId: int, publicTagId: Option<int>)

  /** The PUBLIC tags the step inserts for `rows` when every insert succeeds. */
  function PublicTags(rows: seq<PublicRow>): seq<SiteTag> {
    if rows == [] then []
    else
      var r := rows[|rows| - 1];
      PublicTags(rows[..|rows| - 1]) + if Truthy(r.publicTagId) then [] else [SiteTag(r.siteId, "PUBLIC", Some("Y"), false)]
  }

  /** The row whose insert fails; `insertOk` says whether the insert for a site returns a record id. */
  predicate InsertFails(r: PublicRow, insertOk: int -> bool) {
    !Truthy(r.publicTagId) && !insertOk(r.siteId)
  }

  /**
   * Every row without a PUBLIC tag gets one with value "Y", every inserted
   * tag is such a one, and nothing is inserted for rows that have a tag.
   */
  lemma PublicTagsEffect(tags: seq<SiteTag>, rows: seq<PublicRow>)
    ensures forall r :: r in rows && !Truthy(r.publicTagId) ==> HasSiteTag(tags + PublicTags(rows), r.siteId, "PUBLIC")
    ensures forall t :: t in PublicTags(rows) ==>
              && t.tag == "PUBLIC" && t.value == Some("Y") && !t.deleted
              && exists r :: r in rows && !Truthy(r.publicTagId) && r.siteId == t.siteId
    ensures |PublicTags(rows)| == CountIf(rows, (r: PublicRow) => !Truthy(r.publicTagId))
  {
    PublicTagsCover(tags, rows);
    PublicTagsOnly(rows);
    PublicTagsCount(rows);
  }

  lemma {:induction false} PublicTagsCover(tags: seq<SiteTag>, rows: seq<PublicRow>)
    ensures forall r :: r in rows && !Truthy(r.publicTagId) ==> HasSiteTag(tags + PublicTags(rows), r.siteId, "PUBLIC")
  {
    if rows != [] {
      var n := |rows| - 1;
      var init := rows[..n];
      PublicTagsCover(tags, init);
      var added := if Truthy(rows[n].publicTagId) then [] else [SiteTag(rows[n].siteId, "PUBLIC", Some("Y"), false)];
      assert tags + PublicTags(rows) == (tags + PublicTags(init)) + added;
      forall r | r in rows && !Truthy(r.publicTagId)
        ensures HasSiteTag(tags + PublicTags(rows), r.siteId, "PUBLIC")
      {
        if r in init {
          HasSiteTagAppend(tags + PublicTags(init), added, r.siteId, "PUBLIC");
        } else {
          assert r == rows[n];
          assert (tags + PublicTags(rows))[|tags + PublicTags(init)|] == added[0];
        }
      }
    }
  }

  lemma {:induction false} PublicTagsOnly(rows: seq<PublicRow>)
    ensures forall t :: t in PublicTags(rows) ==>
              && t.tag == "PUBLIC" && t.value == Some("Y") && !t.deleted
              && exists r :: r in rows && !Truthy(r.publicTagId) && r.siteId == t.siteId
  {
    if rows != [] {
      var n := |rows| - 1;
      var init := rows[..n];
      PublicTagsOnly(init);
      forall t | t in PublicTags(rows)
        ensures exists r :: r in rows && !Truthy(r.publicTagId) && r.siteId == t.siteId
      {
        if t in PublicTags(init) {
          var r :| r in init && !Truthy(r.publicTagId) && r.siteId == t.siteId;
          assert r in rows;
        } else {
          assert rows[n] in rows;
        }
      }
    }
  }

  lemma {:induction false} PublicTagsCount(rows: seq<PublicRow>)
    ensures |PublicTags(rows)| == CountIf(rows, (r: PublicRow) => !Truthy(r.publicTagId))
  {
    if rows != [] {
      var n := |rows| - 1;
      PublicTagsCount(rows[..n]);
      CountIfPrefixStep(rows, n, (r: PublicRow) => !Truthy(r.publicTagId));
      assert rows[..n + 1] == rows;
    }
  }

  /** The tables the script touches. */
  class ProgramUpgrade {
    var programs: seq<Program>
    var transactions: seq<Transaction>
    var orgTags: seq<OrgTag>
    var siteTags: seq<SiteTag>

    constructor (programs: seq<Program>, transactions: seq<Transaction>, orgTags: seq<OrgTag>, siteTags: seq<SiteTag>)
      ensures this.programs == programs && this.transactions == transactions
      ensures this.orgTags == orgTags && this.siteTags == siteTags
    {
      this.programs := programs;
      this.transactions := transactions;
      this.orgTags := orgTags;
      this.siteTags := siteTags;
    }

    /** "Fix voucher program balances"; `now` is the time `update_record` stamps. */
    method FixBalances(now: int)
      modifies this
      ensures programs == FixedPrograms(old(programs), transactions, now)
      ensures transactions == old(transactions) && orgTags == old(orgTags) && siteTags == old(siteTags)
    {
      var i := 0;
      while i < |programs|
        invariant 0 <= i <= |programs| == |old(programs)|
        invariant forall j :: 0 <= j < i ==> programs[j] == FixedPrograms(old(programs), transactions, now)[j]
        invariant forall j :: i <= j < |programs| ==> programs[j] == old(programs)[j]
        invariant transactions == old(transactions) && orgTags == old(orgTags) && siteTags == old(siteTags)
      {
        var program := programs[i];
        if !program.deleted {
          var credit := CreditBalance(transactions, program.id);
          var compensation := CompensationBalance(transactions, program.id);
          var changed := false;
          if program.credit != credit {
            program := program.(credit := credit);
            changed := true;
          }
          if program.compensation != compensation {
            program := program.(compensation := compensation);
            changed := true;
          }
          if changed {
            programs := programs[i := program.(modifiedOn := now)];
          }
        }
        i := i + 1;
      }
    }

    /** "Install missing OrgID-Tags" over the selected organisations (see `Migration.OrgIdTags`). */
    method InstallOrgIds(rows: seq<Org>, random: nat -> nat) returns (added: nat)
      modifies this
      ensures orgTags == old(orgTags) + OrgIdTags(rows, random)
      ensures added == |rows|
      ensures programs == old(programs) && transactions == old(transactions) && siteTags == old(siteTags)
    {
      ghost var tags0 := orgTags;
      added := 0;
      var i := 0;
      while i < |rows|
        invariant 0 <= i <= |rows|
        invariant orgTags == tags0 + OrgIdTags(rows[..i], random)
        invariant added == i
        invariant programs == old(programs) && transactions == old(transactions) && siteTags == old(siteTags)
      {
        OrgIdTagsSnoc(rows, random, i);
        orgTags := orgTags + [OrgIdTag(rows[i], random(i))];
        added := added + 1;
        i := i + 1;
      }
      assert rows[..|rows|] == rows;
    }

    /**
     * "Add public-tag for all test stations": stops at the first insert
     * that fails and reports the failure; the tags of the rows before it
     * are in the table until the rollback.
     */
    method AddPublicTags(rows: seq<PublicRow>, insertOk: int -> bool) returns (added: nat, failed: bool)
      modifies this
      ensures var stop := FirstIndex(rows, (r: PublicRow) => InsertFails(r, insertOk));
              var done := if stop.Some? then stop.value else |rows|;
              && failed == stop.Some?
              && siteTags == old(siteTags) + PublicTags(rows[..done])
              && added == |PublicTags(rows[..done])|
      ensures programs == old(programs) && transactions == old(transactions) && orgTags == old(orgTags)
    {
      ghost var tags0 := siteTags;
      added := 0;
      failed := false;
      var i := 0;
      while i < |rows|
        invariant 0 <= i <= |rows|
        invariant forall k :: 0 <= k < i ==> !InsertFails(rows[k], insertOk)
        invariant siteTags == tags0 + PublicTags(rows[..i])
        invariant added == |PublicTags(rows[..i])|
        invariant programs == old(programs) && transactions == old(transactions) && orgTags == old(orgTags)
      {
        assert rows[..i + 1][..i] == rows[..i];
        var row := rows[i];
        if !Truthy(row.publicTagId) {
          if insertOk(row.siteId) {
            siteTags := siteTags + [SiteTag(row.siteId, "PUBLIC", Some("Y"), false)];
            added := added + 1;
          } else {
            failed := true;
            return;
          }
        }
        i := i + 1;
      }
      assert rows[..|rows|] == rows;
    }

    /**
     * The whole script. `orgRows` are the organisations the OrgID query
     * selects, `publicRows` the facilities of the PUBLIC query, `insertOk`
     * the outcome of each PUBLIC insert and `rolesOk` that of the role
     * import. On failure nothing persists.
     */
    method Run(now: int, orgRows: seq<Org>, random: nat -> nat, publicRows: seq<PublicRow>,
               insertOk: int -> bool, rolesOk: bool) returns (failed: bool)
      modifies this
      ensures failed <==> FirstIndex(publicRows, (r: PublicRow) => InsertFails(r, insertOk)).Some? || !rolesOk
      ensures failed ==> programs == old(programs) && orgTags == old(orgTags) && siteTags == old(siteTags)
      ensures !failed ==> && programs == FixedPrograms(old(programs), old(transactions), now)
                          && orgTags == old(orgTags) + OrgIdTags(orgRows, random)
                          && siteTags == old(siteTags) + PublicTags(publicRows)
      ensures transactions == old(transactions)
    {
      var programs0, orgTags0, siteTags0 := programs, orgTags, siteTags;
      FixBalances(now);
      var _ := InstallOrgIds(orgRows, random);
      var _, insertFailed := AddPublicTags(publicRows, insertOk);
      failed := insertFailed;
      if !failed && !rolesOk {
        failed := true;
      }
      if failed {
        programs, orgTags, siteTags := programs0, orgTags0, siteTags0;
      } else {
        assert publicRows[..|publicRows|] == publicRows;
      }
    }
  }
}
