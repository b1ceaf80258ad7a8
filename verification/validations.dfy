/**
 * The field validators of src/common/validations/validations.go. The status
 * and non-empty checks are written out; the address, name and rank checks
 * delegate to utilities that are not part of this model, so they are the
 * predicates a `FieldRules` value carries.
 */
module Validations {
  import opened Common
  import opened GoStrings
  import opened Entities

  /** The three delegated checks: `IsValidAddress`, `IsValidName`, `IsValidRank`. */
  datatype FieldRules = FieldRules(
    isValidAddress: string -> bool,
    isValidName: string -> bool,
    isValidRank: nat -> bool)

  /** The address the create-account tests use as a valid one. */
  const TestAddress := "14yqg2y3a6HMgW9MiF5tVPAH4Dr1uxGKFJ"

  /**
   * What the create-account tests expect of the delegated checks: the empty
   * and "invalid address" addresses fail, the tests' address passes; the
   * empty name and a 256-letter name fail, "John Doe" passes; ranks 0 (an
   * omitted rank) and 101 fail, 50 passes.
   */
  predicate ConsistentWithTests(rules: FieldRules)
  {
    && !rules.isValidAddress("")
    && !rules.isValidAddress("invalid address")
    && rules.isValidAddress(TestAddress)
    && !rules.isValidName("")
    && !rules.isValidName(Repeat('a', 256))
    && rules.isValidName("John Doe")
    && !rules.isValidRank(0)
    && !rules.isValidRank(101)
    && rules.isValidRank(50)
  }

  /**
   * `AccountStatusValidation`: the value with every leading and trailing `"`
   * removed must be exactly `On` or `Off` (case-sensitive). Equivalently,
   * the value is `On` or `Off` with nothing but quote characters around it.
   */
  function AccountStatusValidation(status: string): (ok: bool)
    ensures ok <==> PaddedBy(status, AccountStatusOn, IsQuote) || PaddedBy(status, AccountStatusOff, IsQuote)
  {
    TrimEqualsIff(status, AccountStatusOn, IsQuote);
    TrimEqualsIff(status, AccountStatusOff, IsQuote);
    var stripped := Trim(status, IsQuote);
    stripped == AccountStatusOn || stripped == AccountStatusOff
  }

  /** `AccountAddressValidation`: the delegated address check on the field value. */
  function AccountAddressValidation(rules: FieldRules, address: string): (ok: bool)
    ensures ok <==> rules.isValidAddress(address)
  {
    rules.isValidAddress(address)
  }

  /** `AccountNameValidation`: the delegated name check on the field value. */
  function AccountNameValidation(rules: FieldRules, name: string): (ok: bool)
    ensures ok <==> rules.isValidName(name)
  {
    rules.isValidName(name)
  }

  /** `AccountRankValidation`: the delegated rank check on the field's unsigned value. */
  function AccountRankValidation(rules: FieldRules, rank: uint8): (ok: bool)
    ensures ok <==> rules.isValidRank(rank as nat)
  {
    rules.isValidRank(rank as nat)
  }

  /** `NotEmpty`: false exactly for the empty string and strings made only of white space. */
  function NotEmpty(str: string): (ok: bool)
    ensures !ok <==> forall i :: 0 <= i < |str| ==> IsSpace(str[i])
    ensures str == [] ==> !ok
  {
    TrimEmptyIff(str, IsSpace);
    TrimSpace(str) != []
  }

  /** Validating a value whose quotes were already stripped gives the same answer. */
  lemma StatusValidationOfStripped(status: string)
    ensures AccountStatusValidation(Trim(status, IsQuote)) == AccountStatusValidation(status)
  {
    TrimIdempotent(status, IsQuote);
  }

  /** Exactly the two listed values pass among strings without surrounding quotes. */
  lemma {:induction false} StatusValidationOfUnquoted(status: string)
    requires status == [] || (!IsQuote(status[0]) && !IsQuote(status[|status| - 1]))
    ensures AccountStatusValidation(status) <==> status in AccountStatusList
  {
    if status != [] {
      TrimOfPadding(status, 0, |status|, IsQuote);
      assert status[0..|status|] == status;
    }
  }

  /** The comparison is case-sensitive, and the empty or all-quote value fails. */
  lemma StatusValidationRejects(quotes: nat)
    ensures !AccountStatusValidation("on") && !AccountStatusValidation("OFF")
    ensures !AccountStatusValidation("")
    ensures !AccountStatusValidation(Repeat('"', quotes))
  {
    StatusValidationOfUnquoted("on");
    StatusValidationOfUnquoted("OFF");
    TrimEmptyIff(Repeat('"', quotes), IsQuote);
  }

  /** Quotes around a listed value are accepted, although the stored value then keeps them. */
  lemma QuotedStatusAccepted()
    ensures AccountStatusValidation("\"On\"")
    ensures "\"On\"" !in AccountStatusList
  {
    var s := "\"On\"";
    TrimOfPadding(s, 1, 3, IsQuote);
    assert s[1..3] == AccountStatusOn;
  }
}
