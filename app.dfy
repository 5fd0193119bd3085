/**
 * The mock contract board of the dashboard page (frontend/app.js): an in-memory list of
 * contracts, seeded with one, that the two submit forms prepend to, the table's Edit
 * button toggles the status of and its Delete button removes from; the search box filters
 * the rows by customer name, vehicle name or code.
 *
 * The `confirm('Delete this contract?')` answer is the parameter `confirmed`, and the
 * currency formatting of `Intl.NumberFormat` is the parameter `currency`.
 */
module MockContracts {
  import opened Common
  import opened JsNumbers

  /** A customer, vehicle or staff member of the select boxes. */
  datatype Named = Named(id: string, name: string)

  datatype MockContract = MockContract(
    code: string,
    customerId: string,
    vehicleId: string,
    staffId: string,
    startDate: string,
    endDate: string,
    status: string,
    amount: Num,
    notes: string)

  /**
   * What a submit form yields: the selected ids, the dates, the status and notes fields
   * ("" when empty) and the amount as `Number` reads the field (`None` when it is empty).
   */
  datatype Submission = Submission(
    customerId: string,
    vehicleId: string,
    staffId: string,
    startDate: string,
    endDate: string,
    status: string,
    amount: Option<Num>,
    notes: string)

  function Customers(): seq<Named> {
    [Named("C001", "Nguyen Van A"), Named("C002", "Tran Thi B"), Named("C003", "Le Van C")]
  }

  function VehicleNames(): seq<Named> {
    [Named("V001", "Toyota Vios 2020"), Named("V002", "Honda City 2021"), Named("V003", "Mazda 3 2019")]
  }

  function StaffNames(): seq<Named> {
    [Named("S001", "Pham Minh"), Named("S002", "Hoang Anh"), Named("S003", "Thu Trang")]
  }

  /** The contract the board starts with. */
  function Seed(): seq<MockContract> {
    [MockContract("CT-0001", "C001", "V001", "S001", "2025-10-01", "2025-10-05",
                  "Active", Fin(350.0), "No scratches before rent.")]
  }

  // ---------------------------------------------------------------------------------------
  // getNameById and the table filter
  // ---------------------------------------------------------------------------------------

  function IdIs(id: string): Named -> bool {
    (n: Named) => n.id == id
  }

  /** getNameById: the name of the first entry with the id, '' when no entry has it. */
  function NameById(list: seq<Named>, id: string): (r: string)
    ensures var k := FirstIndex(list, IdIs(id));
      (k < 0 ==> r == []) && (k >= 0 ==> r == list[k].name)
  {
    if list == [] then []
    else if list[0].id == id then list[0].name
    else
      var r := NameById(list[1..], id);
      assert FirstIndex(list, IdIs(id)) == 1 + FirstIndex(list[1..], IdIs(id))
          || FirstIndex(list[1..], IdIs(id)) < 0;
      r
  }

  /** The row test of renderTable for the lower-cased query `q`. */
  predicate RowMatches(customers: seq<Named>, vehicles: seq<Named>, c: MockContract, q: string) {
    Contains(ToLower(NameById(customers, c.customerId)), q)
    || Contains(ToLower(NameById(vehicles, c.vehicleId)), q)
    || Contains(ToLower(c.code), q)
  }

  function MatchesQuery(customers: seq<Named>, vehicles: seq<Named>, q: string): MockContract -> bool {
    (c: MockContract) => RowMatches(customers, vehicles, c, q)
  }

  /**
   * The rows renderTable shows: the contracts, in list order, whose customer name, vehicle
   * name or code contains the query lower-cased (the query is not trimmed).
   */
  function Visible(customers: seq<Named>, vehicles: seq<Named>, contracts: seq<MockContract>, query: string)
    : (r: seq<MockContract>)
    ensures SubsequenceOf(r, contracts)
    ensures forall c :: c in r <==> c in contracts && RowMatches(customers, vehicles, c, ToLower(query))
  {
    Filter(contracts, MatchesQuery(customers, vehicles, ToLower(query)))
  }

  /** An empty search box shows every contract. */
  lemma EmptyQueryShowsAll(customers: seq<Named>, vehicles: seq<Named>, contracts: seq<MockContract>)
    ensures Visible(customers, vehicles, contracts, "") == contracts
  {
    var q := ToLower("");
    assert q == [];
    forall c | c in contracts ensures MatchesQuery(customers, vehicles, q)(c) {
      assert q <= ToLower(c.code);
    }
    FilterAll(contracts, MatchesQuery(customers, vehicles, q));
  }

  /** Searching for a contract's code, in any letter case, shows that contract. */
  lemma FoundByOwnCode(customers: seq<Named>, vehicles: seq<Named>, contracts: seq<MockContract>,
                       c: MockContract, query: string)
    requires c in contracts && ToLower(query) == ToLower(c.code)
    ensures c in Visible(customers, vehicles, contracts, query)
  {
    assert ToLower(query) <= ToLower(c.code);
  }

  // ---------------------------------------------------------------------------------------
  // Contract codes
  // ---------------------------------------------------------------------------------------

  /** `'CT-' + String(n).padStart(4, '0')` */
  function Code(n: nat): (r: string)
    ensures |r| >= 7 && r[..3] == "CT-" && AllDigits(r[3..])
  {
    var s := NatToString(n);
    var p := PadStart(s, 4, '0');
    forall i | 0 <= i < |p| ensures IsDigit(p[i]) {
      if i >= |p| - |s| {
        assert p[i] == p[|p| - |s|..][i - (|p| - |s|)];
      }
    }
    assert ("CT-" + p)[3..] == p;
    "CT-" + p
  }

  lemma {:induction false} ZerosValue(z: string)
    requires forall i :: 0 <= i < |z| ==> z[i] == '0'
    ensures AllDigits(z) && DigitsValue(z) == 0
  {
    if z != [] {
      ZerosValue(z[..|z| - 1]);
    }
  }

  /** Leading zeros do not change the value of a string of digits. */
  lemma {:induction false} LeadingZerosValue(z: string, s: string)
    requires forall i :: 0 <= i < |z| ==> z[i] == '0'
    requires AllDigits(s)
    ensures AllDigits(z + s) && DigitsValue(z + s) == DigitsValue(s)
  {
    if s == [] {
      assert z + s == z;
      ZerosValue(z);
    } else {
      var t := s[..|s| - 1];
      LeadingZerosValue(z, t);
      assert (z + s)[..|z + s| - 1] == z + t;
    }
  }

  /** The digits after "CT-" read back as the number the code was made from. */
  lemma CodeNumber(n: nat)
    ensures DigitsValue(Code(n)[3..]) == n
  {
    var s := NatToString(n);
    var p := PadStart(s, 4, '0');
    var z := p[..|p| - |s|];
    assert p == z + s;
    LeadingZerosValue(z, s);
    NatToStringRoundTrip(n);
    assert Code(n)[3..] == p;
  }

  /** Distinct numbers give distinct codes. */
  lemma CodeInjective(m: nat, n: nat)
    requires Code(m) == Code(n)
    ensures m == n
  {
    CodeNumber(m);
    CodeNumber(n);
  }

  /** The first two codes, written out. */
  lemma FirstCodes()
    ensures Code(1) == "CT-0001" && Code(2) == "CT-0002"
  {
    assert NatToString(1) == "1" && NatToString(2) == "2";
    assert PadStart("1", 4, '0') == "0001";
    assert PadStart("2", 4, '0') == "0002";
  }

  // ---------------------------------------------------------------------------------------
  // The board's operations, as functions of the list
  // ---------------------------------------------------------------------------------------

  /** `!customerId || !vehicleId || !staffId` rejects the submission. */
  predicate Complete(f: Submission) {
    f.customerId != [] && f.vehicleId != [] && f.staffId != []
  }

  /** The contract a submission builds under the number `n`. */
  function NewContract(f: Submission, n: nat): (c: MockContract)
    ensures c.code == Code(n)
    ensures c.status != [] && (f.status != [] ==> c.status == f.status)
    ensures f.amount.None? ==> c.amount == Fin(0.0)
  {
    MockContract(Code(n), f.customerId, f.vehicleId, f.staffId, f.startDate, f.endDate,
                 if f.status == [] then "Active" else f.status,
                 f.amount.GetOr(Fin(0.0)), f.notes)
  }

  /**
   * A submission: an incomplete one changes nothing; a complete one is put in front of the
   * list, numbered one past the current length.
   */
  function Submitted(contracts: seq<MockContract>, f: Submission): (r: seq<MockContract>)
    ensures !Complete(f) ==> r == contracts
    ensures Complete(f) ==>
      |r| == |contracts| + 1 && r[1..] == contracts && r[0] == NewContract(f, |contracts| + 1)
  {
    if Complete(f) then [NewContract(f, |contracts| + 1)] + contracts else contracts
  }

  function HasCode(code: string): MockContract -> bool {
    (c: MockContract) => c.code == code
  }

  /** The Edit button's toggle. */
  function Flipped(status: string): (s: string)
    ensures status == "Active" ==> s == "Completed"
    ensures status != "Active" ==> s == "Active"
  {
    if status == "Active" then "Completed" else "Active"
  }

  /**
   * The Edit button: the status of the first contract with the code is flipped, and an
   * unknown code changes nothing.
   */
  function Toggled(contracts: seq<MockContract>, code: string): (r: seq<MockContract>)
    ensures |r| == |contracts|
    ensures var k := FirstIndex(contracts, HasCode(code));
      (k < 0 ==> r == contracts)
      && (k >= 0 ==> r[k] == contracts[k].(status := Flipped(contracts[k].status))
                     && forall j :: 0 <= j < |r| && j != k ==> r[j] == contracts[j])
  {
    var k := FirstIndex(contracts, HasCode(code));
    if k < 0 then contracts
    else contracts[k := contracts[k].(status := Flipped(contracts[k].status))]
  }

  /** Toggling twice restores a contract that was Active or Completed; every code stays. */
  lemma ToggleTwice(contracts: seq<MockContract>, code: string)
    requires forall c :: c in contracts && c.code == code ==> c.status == "Active" || c.status == "Completed"
    ensures Toggled(Toggled(contracts, code), code) == contracts
  {
    var k := FirstIndex(contracts, HasCode(code));
    if k >= 0 {
      var once := Toggled(contracts, code);
      assert contracts[k] in contracts;
      assert once[k].code == code;
      forall j | 0 <= j < k ensures !HasCode(code)(once[j]) {
        assert once[j] == contracts[j];
      }
      assert FirstIndex(once, HasCode(code)) == k;
      var twice := Toggled(once, code);
      assert twice[k] == contracts[k];
      assert forall j :: 0 <= j < |contracts| ==> twice[j] == contracts[j];
    }
  }

  /**
   * The Delete button: after the dialog is confirmed the first contract with the code is
   * spliced out; an unknown code or a cancelled dialog changes nothing.
   */
  function Deleted(contracts: seq<MockContract>, code: string, confirmed: bool): (r: seq<MockContract>)
    ensures var k := FirstIndex(contracts, HasCode(code));
      (!confirmed || k < 0 ==> r == contracts)
      && (confirmed && k >= 0 ==>
            |r| == |contracts| - 1 && contracts[k].code == code && r == contracts[..k] + contracts[k + 1..])
  {
    var k := FirstIndex(contracts, HasCode(code));
    if !confirmed || k < 0 then contracts else contracts[..k] + contracts[k + 1..]
  }

  /** Where each element of a splice comes from. */
  lemma Spliced<T>(s: seq<T>, k: nat)
    requires k < |s|
    ensures var r := s[..k] + s[k + 1..];
      |r| == |s| - 1
      && (forall i :: 0 <= i < k ==> r[i] == s[i])
      && (forall i :: k <= i < |r| ==> r[i] == s[i + 1])
  {
  }

  predicate DistinctCodes(contracts: seq<MockContract>) {
    forall i, j :: 0 <= i < j < |contracts| ==> contracts[i].code != contracts[j].code
  }

  /**
   * With distinct codes, a confirmed delete removes the code from the board and keeps every
   * other contract.
   */
  lemma DeleteRemovesCode(contracts: seq<MockContract>, code: string)
    requires DistinctCodes(contracts)
    ensures var r := Deleted(contracts, code, true);
      (forall c :: c in r ==> c.code != code)
      && (forall c :: c in contracts && c.code != code ==> c in r)
      && (forall c :: c in r ==> c in contracts)
  {
    var k := FirstIndex(contracts, HasCode(code));
    var r := Deleted(contracts, code, true);
    if k >= 0 {
      Spliced(contracts, k);
      forall c | c in contracts && c.code != code ensures c in r {
        var i :| 0 <= i < |contracts| && contracts[i] == c;
        if i < k {
          assert r[i] == c;
        } else {
          assert r[i - 1] == c;
        }
      }
      forall c | c in r ensures c.code != code && c in contracts {
        var i :| 0 <= i < |r| && r[i] == c;
        if i < k {
          assert c == contracts[i];
        } else {
          assert c == contracts[i + 1];
        }
      }
    } else {
      forall c | c in contracts ensures c.code != code {
        var i :| 0 <= i < |contracts| && contracts[i] == c;
        assert !HasCode(code)(contracts[i]);
      }
    }
  }

  /**
   * As written, a new code is numbered from the list's length, so a delete followed by a
   * submission can hand out a code the board already shows: submit (CT-0002), delete the
   * seeded CT-0001, submit again (CT-0002 once more).
   */
  lemma DuplicateCodeAfterDelete(f: Submission)
    requires Complete(f)
    ensures DistinctCodes(Seed())
    ensures var s3 := Submitted(Deleted(Submitted(Seed(), f), "CT-0001", true), f);
      |s3| == 2 && s3[0].code == "CT-0002" && s3[1].code == "CT-0002" && !DistinctCodes(s3)
  {
    FirstCodes();
    var s1 := Submitted(Seed(), f);
    assert s1[0].code == "CT-0002" && s1[1] == Seed()[0];
    assert !HasCode("CT-0001")(s1[0]);
    assert FirstIndex(s1, HasCode("CT-0001")) == 1 by {
      assert FirstIndex(s1[1..], HasCode("CT-0001")) == 0;
    }
    var s2 := Deleted(s1, "CT-0001", true);
    assert s2 == [s1[0]] by {
      assert s2[..1] == s1[..1];
    }
    var s3 := Submitted(s2, f);
    assert s3[0].code == Code(2);
  }

  // ---------------------------------------------------------------------------------------
  // Codes from a running counter
  // ---------------------------------------------------------------------------------------

  /** Every contract's code is `Code(k)` for some `k` from 1 to `issued`. */
  ghost predicate CodedBelow(contracts: seq<MockContract>, issued: nat) {
    forall c :: c in contracts ==> exists k :: 1 <= k <= issued && c.code == Code(k)
  }

  /**
   * Numbering from a counter of codes ever issued rather than from the current length: a
   * complete submission takes the next number and advances the counter.
   */
  function SubmittedCounted(contracts: seq<MockContract>, issued: nat, f: Submission)
    : (r: (seq<MockContract>, nat))
    ensures !Complete(f) ==> r == (contracts, issued)
    ensures Complete(f) ==>
      r.1 == issued + 1 && |r.0| == |contracts| + 1 && r.0[1..] == contracts && r.0[0] == NewContract(f, issued + 1)
  {
    if Complete(f) then ([NewContract(f, issued + 1)] + contracts, issued + 1) else (contracts, issued)
  }

  /** With the counter, a submission never repeats a code on the board. */
  lemma CountedSubmitKeepsCodesDistinct(contracts: seq<MockContract>, issued: nat, f: Submission)
    requires DistinctCodes(contracts) && CodedBelow(contracts, issued)
    ensures var r := SubmittedCounted(contracts, issued, f);
      DistinctCodes(r.0) && CodedBelow(r.0, r.1)
  {
    if Complete(f) {
      var c := NewContract(f, issued + 1);
      NextCodeFresh(contracts, issued);
      PrependFresh(c, contracts);
      PrependIssued(c, contracts, issued);
    }
  }

  /** The next number's code is on no contract yet. */
  lemma NextCodeFresh(contracts: seq<MockContract>, issued: nat)
    requires CodedBelow(contracts, issued)
    ensures forall c :: c in contracts ==> c.code != Code(issued + 1)
  {
    forall c | c in contracts ensures c.code != Code(issued + 1) {
      var k :| 1 <= k <= issued && c.code == Code(k);
      if Code(issued + 1) == Code(k) {
        CodeInjective(issued + 1, k);
      }
    }
  }

  /** A contract whose code is new keeps the codes distinct when put in front. */
  lemma PrependFresh(c: MockContract, contracts: seq<MockContract>)
    requires DistinctCodes(contracts)
    requires forall d :: d in contracts ==> d.code != c.code
    ensures DistinctCodes([c] + contracts)
  {
    var l := [c] + contracts;
    forall i, j | 0 <= i < j < |l| ensures l[i].code != l[j].code {
      assert l[j] == contracts[j - 1];
      if i > 0 {
        assert l[i] == contracts[i - 1];
      }
    }
  }

  /** Putting the contract numbered `issued + 1` in front keeps every code issued. */
  lemma PrependIssued(c: MockContract, contracts: seq<MockContract>, issued: nat)
    requires CodedBelow(contracts, issued) && c.code == Code(issued + 1)
    ensures CodedBelow([c] + contracts, issued + 1)
  {
    forall d | d in [c] + contracts ensures exists k :: 1 <= k <= issued + 1 && d.code == Code(k) {
      if d != c {
        assert d in contracts;
        var k :| 1 <= k <= issued && d.code == Code(k);
      }
    }
  }

  /** Splicing one contract out keeps the other codes distinct and adds no contract. */
  lemma SpliceKeepsCodesDistinct(s: seq<MockContract>, k: nat)
    requires k < |s| && DistinctCodes(s)
    ensures var r := s[..k] + s[k + 1..];
      DistinctCodes(r) && forall c :: c in r ==> c in s
  {
    var r := s[..k] + s[k + 1..];
    Spliced(s, k);
    forall c | c in r ensures c in s {
      var i :| 0 <= i < |r| && r[i] == c;
      if i >= k {
        assert r[i] == s[i + 1];
      }
    }
    forall i, j | 0 <= i < j < |r| ensures r[i].code != r[j].code {
      var m := if i < k then i else i + 1;
      var n := if j < k then j else j + 1;
      assert r[i] == s[m] && r[j] == s[n] && m < n;
    }
  }

  /** A delete keeps the codes distinct and issued. */
  lemma DeleteKeepsCodesDistinct(contracts: seq<MockContract>, issued: nat, code: string, confirmed: bool)
    requires DistinctCodes(contracts) && CodedBelow(contracts, issued)
    ensures var r := Deleted(contracts, code, confirmed);
      DistinctCodes(r) && CodedBelow(r, issued)
  {
    var k := FirstIndex(contracts, HasCode(code));
    var r := Deleted(contracts, code, confirmed);
    if confirmed && k >= 0 {
      assert r == contracts[..k] + contracts[k + 1..];
      SpliceKeepsCodesDistinct(contracts, k);
      forall c | c in r ensures exists n :: 1 <= n <= issued && c.code == Code(n) {
        assert c in contracts;
      }
    } else {
      assert r == contracts;
    }
  }

  // ---------------------------------------------------------------------------------------
  // formatMoney
  // ---------------------------------------------------------------------------------------

  /** The value formatMoney is given. */
  datatype MoneyValue = Missing | EmptyText | Value(n: Num)

  /** formatMoney: '' for null, undefined or ''; otherwise the currency rendering of the number. */
  function FormatMoney(v: MoneyValue, currency: Num -> string): (r: string)
    ensures v.Missing? || v.EmptyText? ==> r == []
    ensures v.Value? ==> r == currency(v.n)
  {
    if v.Value? then currency(v.n) else []
  }

  // ---------------------------------------------------------------------------------------
  // The board
  // ---------------------------------------------------------------------------------------

  /** `state.contracts` and the handlers that change it. */
  class MockBoard {
    var contracts: seq<MockContract>

    constructor()
      ensures contracts == Seed() && DistinctCodes(contracts)
    {
      contracts := Seed();
    }

    /** Either submit handler: the new contract goes in front (`unshift`). */
    method Submit(f: Submission)
      modifies this
      ensures contracts == Submitted(old(contracts), f)
    {
      var code := Code(|contracts| + 1);
      if !Complete(f) {
        return;
      }
      var status := if f.status == [] then "Active" else f.status;
      var c := MockContract(code, f.customerId, f.vehicleId, f.staffId, f.startDate, f.endDate,
                            status, f.amount.GetOr(Fin(0.0)), f.notes);
      contracts := [c] + contracts;
    }

    /** The Details button: the first contract with the code, if any. */
    method Details(code: string) returns (c: Option<MockContract>)
      ensures c.Some? <==> exists i :: 0 <= i < |contracts| && contracts[i].code == code
      ensures c.Some? ==>
        c.value in contracts && c.value.code == code && c.value == contracts[FirstIndex(contracts, HasCode(code))]
    {
      var idx := FindIndex(contracts, HasCode(code));
      if idx < 0 {
        c := None;
      } else {
        c := Some(contracts[idx]);
      }
    }

    /** The Edit button. */
    method ToggleStatus(code: string)
      modifies this
      ensures contracts == Toggled(old(contracts), code)
    {
      var idx := FindIndex(contracts, HasCode(code));
      if idx < 0 {
        return;
      }
      var c := contracts[idx];
      contracts := contracts[idx := c.(status := Flipped(c.status))];
    }

    /** The Delete button, with the dialog's answer. */
    method Delete(code: string, confirmed: bool)
      modifies this
      ensures contracts == Deleted(old(contracts), code, confirmed)
    {
      var idx := FindIndex(contracts, HasCode(code));
      if idx < 0 {
        return;
      }
      if confirmed {
        contracts := contracts[..idx] + contracts[idx + 1..];
      }
    }
  }
}
