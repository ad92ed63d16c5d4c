/** Bank accounts for receiving payments (controllers/bankAccountController.js
    over models/BankAccount.js): normalised fields, soft deletion and the
    primary flag, of which each owner should hold at most one among the
    live accounts. */
module BankAccountController {
  import opened Common
  import opened Text

  datatype Account = Account(
    id: Id,
    owner: Id,
    bankName: string,
    accountNumber: string,
    ifscCode: string,
    holderName: string,
    upiId: string,
    isPrimary: bool,
    deleted: bool)

  /** The request body. `isPrimary` is `None` when absent; other JSON
      values than booleans are not modelled. */
  datatype AccountInput = AccountInput(
    bankName: Option<string>,
    accountNumber: Option<string>,
    ifscCode: Option<string>,
    holderName: Option<string>,
    upiId: Option<string>,
    isPrimary: Option<bool>)

  /** The schema's `required` validators, which run on the trimmed values. */
  predicate FieldsPresent(a: Account) {
    a.bankName != "" && a.accountNumber != "" && a.ifscCode != ""
    && a.holderName != "" && a.upiId != ""
  }

  /** The normal form the controller and the schema setters write: every
      field trimmed, the IFSC code upper case and the UPI id lower case. */
  predicate Normal(a: Account) {
    && a.bankName == Trim(a.bankName) && a.accountNumber == Trim(a.accountNumber)
    && a.holderName == Trim(a.holderName)
    && a.ifscCode == Trim(a.ifscCode) && a.ifscCode == ToUpper(a.ifscCode)
    && a.upiId == Trim(a.upiId) && a.upiId == ToLower(a.upiId)
  }

  function NormIfsc(s: string): string { ToUpper(Trim(s)) }
  function NormUpi(s: string): string { ToLower(Trim(s)) }

  lemma NormalisedFieldsAreNormal(s: string)
    ensures Trim(Trim(s)) == Trim(s)
    ensures NormIfsc(s) == Trim(NormIfsc(s)) && NormIfsc(s) == ToUpper(NormIfsc(s))
    ensures NormUpi(s) == Trim(NormUpi(s)) && NormUpi(s) == ToLower(NormUpi(s))
  {
    TrimIdempotent(s);
    CaseMappingKeepsTrim(s);
    CaseMappingIdempotent(Trim(s));
  }

  /** A live account of the owner that is marked primary. */
  predicate LivePrimary(a: Account, owner: Id) { a.owner == owner && !a.deleted && a.isPrimary }

  predicate Live(a: Account, owner: Id) { a.owner == owner && !a.deleted }

  /** The owner has at most one live primary account. */
  predicate AtMostOnePrimary(accounts: seq<Account>, owner: Id) {
    forall i, j :: 0 <= i < j < |accounts| ==> !(LivePrimary(accounts[i], owner) && LivePrimary(accounts[j], owner))
  }

  /** `updateMany({ createdBy, isPrimary: true }, { isPrimary: false })`:
      every account of the owner, deleted or not, loses the flag. */
  function ClearPrimaries(accounts: seq<Account>, owner: Id): (r: seq<Account>)
    ensures |r| == |accounts|
    ensures forall k :: 0 <= k < |r| ==> r[k] == (if accounts[k].owner == owner then accounts[k].(isPrimary := false) else accounts[k])
  {
    Map(accounts, (a: Account) => if a.owner == owner then a.(isPrimary := false) else a)
  }

  /** `BankAccount.findOne({ _id, createdBy, deleted: false })`. */
  function FindLiveAccount(accounts: seq<Account>, owner: Id, id: Id): (r: Option<nat>)
    ensures r.Some? ==> r.value < |accounts| && accounts[r.value].id == id && Live(accounts[r.value], owner)
    ensures r.None? <==> forall k :: 0 <= k < |accounts| ==> !(accounts[k].id == id && Live(accounts[k], owner))
  {
    FindIndex(accounts, (a: Account) => a.id == id && Live(a, owner))
  }

  // ----------------------------------------------------------------- add

  predicate AllFieldsGiven(input: AccountInput) {
    Truthy(input.bankName) && Truthy(input.accountNumber) && Truthy(input.ifscCode)
    && Truthy(input.holderName) && Truthy(input.upiId)
  }

  function LiveCount(accounts: seq<Account>, owner: Id): nat {
    Count(accounts, (a: Account) => Live(a, owner))
  }

  /** The store once a primary request has cleared the owner's primaries. */
  function AfterClear(accounts: seq<Account>, owner: Id, requested: bool): (r: seq<Account>)
    ensures |r| == |accounts|
    ensures forall k :: 0 <= k < |r| ==>
              (r[k].id == accounts[k].id && r[k].owner == accounts[k].owner && r[k].deleted == accounts[k].deleted)
  {
    if requested then ClearPrimaries(accounts, owner) else accounts
  }

  /** An id no stored account carries. */
  function FreshAccountId(accounts: seq<Account>): (r: Id)
    ensures forall k :: 0 <= k < |accounts| ==> accounts[k].id != r
  {
    var ids := Map(accounts, (a: Account) => a.id);
    assert forall k :: 0 <= k < |accounts| ==> accounts[k].id == ids[k];
    FreshId(ids)
  }

  /** The account `addBankAccount` writes. */
  function NewAccount(id: Id, owner: Id, input: AccountInput, primary: bool): Account
    requires AllFieldsGiven(input)
  {
    Account(id, owner, Trim(input.bankName.value), Trim(input.accountNumber.value),
            NormIfsc(input.ifscCode.value), Trim(input.holderName.value), NormUpi(input.upiId.value),
            primary, false)
  }

  /** `addBankAccount`. A primary request clears the owner's primaries
      before anything else; the new account is primary when requested or
      when the owner has no live account. A field that is only white space
      passes the presence check but fails the schema once trimmed, after
      the primaries were already cleared. */
  function AddBankAccount(accounts: seq<Account>, owner: Id, input: AccountInput)
    : (r: (seq<Account>, Result<Account>))
    ensures !AllFieldsGiven(input) ==> r == (accounts, Err(InvalidInput("All fields are required")))
    ensures AllFieldsGiven(input) ==>
              var before := AfterClear(accounts, owner, input.isPrimary == Some(true));
              && (r.1.Err? ==> r == (before, Err(Internal("Failed to add bank account"))))
              && (r.1.Ok? ==>
                    var a := r.1.value;
                    && r.0 == before + [a]
                    && a == NewAccount(a.id, owner, input, input.isPrimary == Some(true) || LiveCount(before, owner) == 0)
                    && FieldsPresent(a)
                    && forall k :: 0 <= k < |accounts| ==> accounts[k].id != a.id)
  {
    if !AllFieldsGiven(input) then (accounts, Err(InvalidInput("All fields are required")))
    else
      var before := AfterClear(accounts, owner, input.isPrimary == Some(true));
      var a := NewAccount(FreshAccountId(accounts), owner, input, input.isPrimary == Some(true) || LiveCount(before, owner) == 0);
      if !FieldsPresent(a) then (before, Err(Internal("Failed to add bank account")))
      else (before + [a], Ok(a))
  }

  /** The account written is in normal form, with a fresh id. */
  lemma NewAccountIsNormal(id: Id, owner: Id, input: AccountInput, primary: bool)
    requires AllFieldsGiven(input)
    ensures Normal(NewAccount(id, owner, input, primary))
  {
    NormalisedFieldsAreNormal(input.bankName.value);
    NormalisedFieldsAreNormal(input.accountNumber.value);
    NormalisedFieldsAreNormal(input.ifscCode.value);
    NormalisedFieldsAreNormal(input.holderName.value);
    NormalisedFieldsAreNormal(input.upiId.value);
  }

  /** Fewer live primaries keep the bound. */
  lemma FewerPrimaries(a: seq<Account>, b: seq<Account>, other: Id)
    requires |a| == |b| && AtMostOnePrimary(a, other)
    requires forall i :: 0 <= i < |b| && LivePrimary(b[i], other) ==> LivePrimary(a[i], other)
    ensures AtMostOnePrimary(b, other)
  {
    forall i, j | 0 <= i < j < |b|
      ensures !(LivePrimary(b[i], other) && LivePrimary(b[j], other))
    {
      assert LivePrimary(b[i], other) ==> LivePrimary(a[i], other);
    }
  }

  /** A store whose only possible live primary sits at one index. */
  lemma PrimaryOnlyAt(b: seq<Account>, other: Id, k: nat)
    requires forall i :: 0 <= i < |b| && i != k ==> !LivePrimary(b[i], other)
    ensures AtMostOnePrimary(b, other)
  {
  }

  /** Appending an account that is not a live primary keeps the bound. */
  lemma AppendNonPrimary(b: seq<Account>, a: Account, other: Id)
    requires AtMostOnePrimary(b, other) && !LivePrimary(a, other)
    ensures AtMostOnePrimary(b + [a], other)
  {
    assert forall i :: 0 <= i < |b| ==> (b + [a])[i] == b[i];
  }

  /** Clearing the primaries never adds one. */
  lemma AfterClearFewer(accounts: seq<Account>, owner: Id, requested: bool, other: Id)
    ensures var b := AfterClear(accounts, owner, requested);
            && (forall i :: 0 <= i < |b| && LivePrimary(b[i], other) ==> LivePrimary(accounts[i], other))
            && (requested ==> forall i :: 0 <= i < |b| ==> !LivePrimary(b[i], owner))
  {
  }

  /** Appending an account of the owner that is primary only when asked
      to be, after the clearing, or when the owner has no live account. */
  lemma AppendNewAccount(before: seq<Account>, a: Account, owner: Id, requested: bool, other: Id)
    requires AtMostOnePrimary(before, other)
    requires a.owner == owner && (a.isPrimary ==> requested || LiveCount(before, owner) == 0)
    requires requested ==> forall i :: 0 <= i < |before| ==> !LivePrimary(before[i], owner)
    ensures AtMostOnePrimary(before + [a], other)
  {
    if LivePrimary(a, other) {
      assert forall i :: 0 <= i < |before| ==> (before + [a])[i] == before[i];
      PrimaryOnlyAt(before + [a], other, |before|);
    } else {
      AppendNonPrimary(before, a, other);
    }
  }

  /** Adding keeps at most one live primary per owner, also when it fails
      halfway. */
  lemma AddKeepsAtMostOnePrimary(accounts: seq<Account>, owner: Id, input: AccountInput, other: Id)
    requires AtMostOnePrimary(accounts, other)
    ensures AtMostOnePrimary(AddBankAccount(accounts, owner, input).0, other)
  {
    var r := AddBankAccount(accounts, owner, input);
    if AllFieldsGiven(input) {
      var requested := input.isPrimary == Some(true);
      var before := AfterClear(accounts, owner, requested);
      AfterClearFewer(accounts, owner, requested, other);
      FewerPrimaries(accounts, before, other);
      if r.1.Ok? {
        AppendNewAccount(before, r.1.value, owner, requested, other);
      }
    }
  }

  // -------------------------------------------------------------- update

  /** `if (field) account.field = normalise(field)`: a given field
      replaces the stored one in normal form. */
  function TrimmedOr(given: Option<string>, stored: string): string {
    if Truthy(given) then Trim(given.value) else stored
  }
  function IfscOr(given: Option<string>, stored: string): string {
    if Truthy(given) then NormIfsc(given.value) else stored
  }
  function UpiOr(given: Option<string>, stored: string): string {
    if Truthy(given) then NormUpi(given.value) else stored
  }

  lemma TrimmedOrNormal(given: Option<string>, stored: string)
    requires stored == Trim(stored)
    ensures TrimmedOr(given, stored) == Trim(TrimmedOr(given, stored))
  {
    if Truthy(given) { NormalisedFieldsAreNormal(given.value); }
  }

  lemma IfscOrNormal(given: Option<string>, stored: string)
    requires stored == Trim(stored) && stored == ToUpper(stored)
    ensures var v := IfscOr(given, stored); v == Trim(v) && v == ToUpper(v)
  {
    if Truthy(given) { NormalisedFieldsAreNormal(given.value); }
  }

  lemma UpiOrNormal(given: Option<string>, stored: string)
    requires stored == Trim(stored) && stored == ToLower(stored)
    ensures var v := UpiOr(given, stored); v == Trim(v) && v == ToLower(v)
  {
    if Truthy(given) { NormalisedFieldsAreNormal(given.value); }
  }

  /** The account after the given fields are written and, when
      `typeof isPrimary === 'boolean'`, the flag. */
  function Overwrite(a: Account, input: AccountInput): (r: Account)
    ensures r.id == a.id && r.owner == a.owner && r.deleted == a.deleted
    ensures r.isPrimary == input.isPrimary.GetOr(a.isPrimary)
  {
    a.(bankName := TrimmedOr(input.bankName, a.bankName),
       accountNumber := TrimmedOr(input.accountNumber, a.accountNumber),
       ifscCode := IfscOr(input.ifscCode, a.ifscCode),
       holderName := TrimmedOr(input.holderName, a.holderName),
       upiId := UpiOr(input.upiId, a.upiId),
       isPrimary := input.isPrimary.GetOr(a.isPrimary))
  }

  /** `updateBankAccount`: a primary request for an account that is not
      primary clears the owner's primaries first; then the given fields are
      overwritten and the account saved, which the schema refuses when a
      field trims to nothing. */
  function UpdateBankAccount(accounts: seq<Account>, owner: Id, id: Id, input: AccountInput)
    : (r: (seq<Account>, Result<Account>))
    ensures FindLiveAccount(accounts, owner, id).None? ==> r == (accounts, Err(NotFound("Bank account")))
    ensures FindLiveAccount(accounts, owner, id).Some? ==>
              var k := FindLiveAccount(accounts, owner, id).value;
              var before := AfterClear(accounts, owner, input.isPrimary == Some(true) && !accounts[k].isPrimary);
              var a := Overwrite(before[k], input);
              && (FieldsPresent(a) ==> r == (before[k := a], Ok(a)))
              && (!FieldsPresent(a) ==> r == (before, Err(Internal("Failed to update bank account"))))
  {
    match FindLiveAccount(accounts, owner, id)
    case None => (accounts, Err(NotFound("Bank account")))
    case Some(k) =>
      var before := AfterClear(accounts, owner, input.isPrimary == Some(true) && !accounts[k].isPrimary);
      var a := Overwrite(before[k], input);
      if FieldsPresent(a) then (before[k := a], Ok(a))
      else (before, Err(Internal("Failed to update bank account")))
  }

  /** An update keeps a normal account normal. */
  lemma UpdateKeepsNormal(a: Account, input: AccountInput)
    requires Normal(a)
    ensures Normal(Overwrite(a, input))
  {
    TrimmedOrNormal(input.bankName, a.bankName);
    TrimmedOrNormal(input.accountNumber, a.accountNumber);
    IfscOrNormal(input.ifscCode, a.ifscCode);
    TrimmedOrNormal(input.holderName, a.holderName);
    UpiOrNormal(input.upiId, a.upiId);
  }

  /** Overwriting one account with one that is a live primary only where
      the original was keeps every live primary backed by an original one. */
  lemma OverwriteFewer(accounts: seq<Account>, before: seq<Account>, k: nat, a: Account, other: Id)
    requires |before| == |accounts| && k < |accounts|
    requires forall i :: 0 <= i < |before| && LivePrimary(before[i], other) ==> LivePrimary(accounts[i], other)
    requires LivePrimary(a, other) ==> LivePrimary(accounts[k], other)
    ensures forall i :: 0 <= i < |before| && LivePrimary(before[k := a][i], other) ==> LivePrimary(accounts[i], other)
  {
  }

  /** Updating keeps at most one live primary per owner. */
  lemma UpdateKeepsAtMostOnePrimary(accounts: seq<Account>, owner: Id, id: Id, input: AccountInput, other: Id)
    requires AtMostOnePrimary(accounts, other)
    ensures AtMostOnePrimary(UpdateBankAccount(accounts, owner, id, input).0, other)
  {
    var r := UpdateBankAccount(accounts, owner, id, input);
    if FindLiveAccount(accounts, owner, id).Some? {
      var k := FindLiveAccount(accounts, owner, id).value;
      var cleared := input.isPrimary == Some(true) && !accounts[k].isPrimary;
      var before := AfterClear(accounts, owner, cleared);
      var a := Overwrite(before[k], input);
      assert r.0 == before || r.0 == before[k := a];
      AfterClearFewer(accounts, owner, cleared, other);
      FewerPrimaries(accounts, before, other);
      if cleared && other == owner {
        PrimaryOnlyAt(r.0, other, k);
      } else if r.0 != before {
        assert LivePrimary(a, other) ==> LivePrimary(accounts[k], other);
        OverwriteFewer(accounts, before, k, a, other);
        FewerPrimaries(accounts, r.0, other);
      }
    }
  }

  // -------------------------------------------------------------- delete

  /** `deleteBankAccount` as written: the soft delete, then, if the account
      was primary, the first account of the owner, deleted or not, is made
      primary. */
  function DeleteBankAccount(accounts: seq<Account>, owner: Id, id: Id): (r: Result<seq<Account>>)
    ensures r.Err? <==> FindLiveAccount(accounts, owner, id).None?
    ensures r.Err? ==> r.error == NotFound("Bank account")
    ensures r.Ok? ==>
              var k := FindLiveAccount(accounts, owner, id).value;
              var s := accounts[k := accounts[k].(deleted := true)];
              && (!accounts[k].isPrimary ==> r.value == s)
              && (accounts[k].isPrimary ==>
                    var n := FindIndex(s, (a: Account) => a.owner == owner);
                    n.Some? && r.value == s[n.value := s[n.value].(isPrimary := true)])
  {
    match FindLiveAccount(accounts, owner, id)
    case None => Err(NotFound("Bank account"))
    case Some(k) =>
      var s := accounts[k := accounts[k].(deleted := true)];
      if !accounts[k].isPrimary then Ok(s)
      else
        assert s[k].owner == owner;
        var n := FindIndex(s, (a: Account) => a.owner == owner).value;
        Ok(s[n := s[n].(isPrimary := true)])
  }

  /** Deleting, even as written, keeps at most one live primary per owner. */
  lemma DeleteKeepsAtMostOnePrimary(accounts: seq<Account>, owner: Id, id: Id, other: Id)
    requires AtMostOnePrimary(accounts, other)
    requires DeleteBankAccount(accounts, owner, id).Ok?
    ensures AtMostOnePrimary(DeleteBankAccount(accounts, owner, id).value, other)
  {
    var k := FindLiveAccount(accounts, owner, id).value;
    var r := DeleteBankAccount(accounts, owner, id).value;
    if accounts[k].isPrimary && other == owner {
      var n := FindIndex(accounts[k := accounts[k].(deleted := true)], (a: Account) => a.owner == owner).value;
      forall i | 0 <= i < |r| && i != n ensures !LivePrimary(r[i], other) {
        if i != k {
          assert r[i] == accounts[i];
          assert LivePrimary(accounts[k], other);
        }
      }
      PrimaryOnlyAt(r, other, n);
    } else {
      FewerPrimaries(accounts, r, other);
    }
  }

  /** As written, deleting the primary account can leave the live accounts
      without a primary: with a primary A before a live B, the lookup finds
      A again, already deleted, and marks it. */
  lemma DeletePrimaryCanRepickItself()
    ensures var a := Account(1, 7, "Bank", "1", "IFSC", "A", "a@upi", true, false);
            var b := Account(2, 7, "Bank", "2", "IFSC", "B", "b@upi", false, false);
            var r := DeleteBankAccount([a, b], 7, 1);
            && r.Ok? && r.value == [a.(deleted := true), b]
            && Live(r.value[1], 7) && !LivePrimary(r.value[0], 7) && !LivePrimary(r.value[1], 7)
  {
  }

  /** The evidently intended delete: the next primary is the first live
      account of the owner. */
  function DeleteBankAccountFixed(accounts: seq<Account>, owner: Id, id: Id): (r: Result<seq<Account>>)
    ensures r.Err? <==> FindLiveAccount(accounts, owner, id).None?
    ensures r.Err? ==> r.error == NotFound("Bank account")
    ensures r.Ok? ==> |r.value| == |accounts|
    ensures r.Ok? ==>
              var k := FindLiveAccount(accounts, owner, id).value;
              var s := accounts[k := accounts[k].(deleted := true)];
              && (!accounts[k].isPrimary ==> r.value == s)
              && (accounts[k].isPrimary && (forall j :: 0 <= j < |s| ==> !Live(s[j], owner)) ==> r.value == s)
              && (accounts[k].isPrimary && (exists j :: 0 <= j < |s| && Live(s[j], owner)) ==>
                    exists n :: && 0 <= n < |s| && Live(s[n], owner)
                                && (forall j :: 0 <= j < n ==> !Live(s[j], owner))
                                && r.value == s[n := s[n].(isPrimary := true)])
  {
    match FindLiveAccount(accounts, owner, id)
    case None => Err(NotFound("Bank account"))
    case Some(k) =>
      var s := accounts[k := accounts[k].(deleted := true)];
      if !accounts[k].isPrimary then Ok(s)
      else match FindIndex(s, (a: Account) => Live(a, owner))
        case None => Ok(s)
        case Some(n) => Ok(s[n := s[n].(isPrimary := true)])
  }

  /** The corrected delete keeps at most one live primary, and deleting the
      primary account hands the flag to a live account whenever one remains. */
  lemma DeleteFixedKeepsOnePrimary(accounts: seq<Account>, owner: Id, id: Id)
    requires AtMostOnePrimary(accounts, owner)
    requires DeleteBankAccountFixed(accounts, owner, id).Ok?
    ensures var r := DeleteBankAccountFixed(accounts, owner, id).value;
            && AtMostOnePrimary(r, owner)
            && (accounts[FindLiveAccount(accounts, owner, id).value].isPrimary
                && (exists j :: 0 <= j < |r| && Live(r[j], owner))
                ==> exists j :: 0 <= j < |r| && LivePrimary(r[j], owner))
  {
    var k := FindLiveAccount(accounts, owner, id).value;
    var s := accounts[k := accounts[k].(deleted := true)];
    var r := DeleteBankAccountFixed(accounts, owner, id).value;
    if accounts[k].isPrimary {
      var n := FindIndex(s, (a: Account) => Live(a, owner));
      if n.Some? {
        assert LivePrimary(r[n.value], owner);
        assert LivePrimary(accounts[k], owner);
        forall i, j | 0 <= i < j < |r|
          ensures !(LivePrimary(r[i], owner) && LivePrimary(r[j], owner))
        {
          var m := if i == n.value then j else i;
          assert m != n.value && (m == k || !LivePrimary(accounts[m], owner));
        }
      } else {
        assert forall j :: 0 <= j < |r| ==> r[j] == s[j];
      }
    } else {
      forall i, j | 0 <= i < j < |r|
        ensures !(LivePrimary(r[i], owner) && LivePrimary(r[j], owner))
      {
        assert LivePrimary(r[i], owner) ==> LivePrimary(accounts[i], owner);
        assert LivePrimary(r[j], owner) ==> LivePrimary(accounts[j], owner);
      }
    }
  }

  // ---------------------------------------------------------- set primary

  /** `setPrimaryAccount` as written: the target is loaded, the owner's
      primaries are cleared in the database, and the loaded document is
      saved with the flag set. A save writes only the paths whose value it
      changed, so a target that was loaded as primary is not written and
      keeps the cleared flag. */
  function SetPrimaryAccountAsWritten(accounts: seq<Account>, owner: Id, id: Id): (r: Result<seq<Account>>)
    ensures r.Err? <==> FindLiveAccount(accounts, owner, id).None?
    ensures r.Ok? ==>
              var k := FindLiveAccount(accounts, owner, id).value;
              && (accounts[k].isPrimary ==> r.value == ClearPrimaries(accounts, owner))
              && (!accounts[k].isPrimary ==> r.value == SetPrimaryAccount(accounts, owner, id).value)
  {
    match FindLiveAccount(accounts, owner, id)
    case None => Err(NotFound("Bank account"))
    case Some(k) =>
      var cleared := ClearPrimaries(accounts, owner);
      if accounts[k].isPrimary then Ok(cleared)
      else Ok(cleared[k := cleared[k].(isPrimary := true)])
  }

  /** As written, making the primary account primary again leaves the
      owner without any primary account. */
  lemma SetPrimaryAgainClearsIt()
    ensures var a := Account(1, 7, "Bank", "1", "IFSC", "A", "a@upi", true, false);
            var r := SetPrimaryAccountAsWritten([a], 7, 1);
            && r.Ok? && r.value == [a.(isPrimary := false)]
            && Live(r.value[0], 7) && !LivePrimary(r.value[0], 7)
  {
    var a := Account(1, 7, "Bank", "1", "IFSC", "A", "a@upi", true, false);
    assert FindLiveAccount([a], 7, 1) == Some(0);
  }

  /** The evidently intended `setPrimaryAccount`: every primary of the
      owner is cleared and the target, a live account of the owner, becomes
      the only primary, whatever its flag was. */
  function SetPrimaryAccount(accounts: seq<Account>, owner: Id, id: Id): (r: Result<seq<Account>>)
    ensures r.Err? <==> FindLiveAccount(accounts, owner, id).None?
    ensures r.Err? ==> r.error == NotFound("Bank account")
    ensures r.Ok? ==>
              var k := FindLiveAccount(accounts, owner, id).value;
              && |r.value| == |accounts|
              && LivePrimary(r.value[k], owner)
              && (forall j :: 0 <= j < |r.value| && j != k && r.value[j].owner == owner ==> !r.value[j].isPrimary)
              && (forall j :: 0 <= j < |r.value| && accounts[j].owner != owner ==> r.value[j] == accounts[j])
              && (forall j :: 0 <= j < |r.value| ==> r.value[j] == accounts[j].(isPrimary := r.value[j].isPrimary))
  {
    match FindLiveAccount(accounts, owner, id)
    case None => Err(NotFound("Bank account"))
    case Some(k) =>
      var cleared := ClearPrimaries(accounts, owner);
      Ok(cleared[k := cleared[k].(isPrimary := true)])
  }

  /** Setting a primary keeps at most one live primary for every owner. */
  lemma SetPrimaryKeepsAtMostOnePrimary(accounts: seq<Account>, owner: Id, id: Id, other: Id)
    requires AtMostOnePrimary(accounts, other)
    requires SetPrimaryAccount(accounts, owner, id).Ok?
    ensures AtMostOnePrimary(SetPrimaryAccount(accounts, owner, id).value, other)
  {
    var k := FindLiveAccount(accounts, owner, id).value;
    var r := SetPrimaryAccount(accounts, owner, id).value;
    if other == owner {
      PrimaryOnlyAt(r, other, k);
    } else {
      forall i | 0 <= i < |r| && LivePrimary(r[i], other) ensures LivePrimary(accounts[i], other) {
        assert r[i] == accounts[i].(isPrimary := r[i].isPrimary);
      }
      FewerPrimaries(accounts, r, other);
    }
  }
}
