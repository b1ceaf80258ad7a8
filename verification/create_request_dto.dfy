/**
 * The create-account request of
 * src/modules/account/dto/post-create-account-request-dto.go: its fields in
 * declaration order with their validation tags, the validator's list of
 * field errors, the (field, tag) -> message table, and the request builder
 * that reports the first error only.
 */
module CreateRequestDto {
  import opened Common
  import opened GoStrings
  import opened Entities
  import opened Validations

  datatype PostCreateAccountRequestDto = PostCreateAccountRequestDto(
    Address: string,
    Name: string,
    Rank: uint8,
    Memo: string,
    Status: AccountStatus)

  /** The outcome of binding the JSON body; a body that does not bind leaves nothing to validate. */
  datatype Binding = Bound(dto: PostCreateAccountRequestDto) | BindFailed

  /** The DTO's fields. */
  datatype Field = AddressField | NameField | RankField | MemoField | StatusField

  /** The fields in struct declaration order, the order the validator reports them in. */
  const DeclarationOrder: seq<Field> := [AddressField, NameField, RankField, MemoField, StatusField]

  /** A failed check as the validator reports it: the struct field name and the tag that failed. */
  datatype FieldError = FieldError(Field: string, Tag: string)

  /**
   * The reported message. The two default messages come from an error
   * message package that is not part of this model, so they stay symbolic.
   */
  datatype ErrorMessage =
    | Message(text: string)
    | DefaultFieldErrorMessage(field: string)
    | DefaultQueryParseErrorMessage

  function FieldName(f: Field): string
  {
    match f
    case AddressField => "Address"
    case NameField => "Name"
    case RankField => "Rank"
    case MemoField => "Memo"
    case StatusField => "Status"
  }

  /** The field's `validate` tag; Memo has none. */
  function ValidationTag(f: Field): Option<string>
  {
    match f
    case AddressField => Some("AccountAddressValidation")
    case NameField => Some("AccountNameValidation")
    case RankField => Some("AccountRankValidation")
    case MemoField => None
    case StatusField => Some("AccountStatusValidation")
  }

  /** Position of a field in declaration order. */
  function Index(f: Field): (i: nat)
    ensures i < |DeclarationOrder| && DeclarationOrder[i] == f
  {
    match f
    case AddressField => 0
    case NameField => 1
    case RankField => 2
    case MemoField => 3
    case StatusField => 4
  }

  /** The registered check named by the field's tag, applied to the field's value; an untagged field passes. */
  function FieldPasses(rules: FieldRules, dto: PostCreateAccountRequestDto, f: Field): bool
  {
    match f
    case AddressField => AccountAddressValidation(rules, dto.Address)
    case NameField => AccountNameValidation(rules, dto.Name)
    case RankField => AccountRankValidation(rules, dto.Rank)
    case MemoField => true
    case StatusField => AccountStatusValidation(dto.Status)
  }

  /** The error the validator records for a field whose check failed. */
  function ErrorOf(f: Field): FieldError
    requires ValidationTag(f).Some?
  {
    FieldError(FieldName(f), ValidationTag(f).value)
  }

  /**
   * The validator's pass over `fields`: the fields whose check fails, in the
   * order given. A field is listed exactly when it is among `fields` and
   * fails, and only tagged fields can fail.
   */
  function FailingFields(rules: FieldRules, dto: PostCreateAccountRequestDto, fields: seq<Field>): (fs: seq<Field>)
    ensures forall f :: f in fs <==> f in fields && !FieldPasses(rules, dto, f)
    ensures forall f :: f in fs ==> ValidationTag(f).Some?
    ensures |fs| <= |fields|
  {
    if fields == [] then []
    else
      var rest := FailingFields(rules, dto, fields[1..]);
      if FieldPasses(rules, dto, fields[0]) then rest else [fields[0]] + rest
  }

  /** The fields of `s` strictly follow declaration order. */
  predicate InDeclarationOrder(s: seq<Field>)
  {
    forall i, i' :: 0 <= i < i' < |s| ==> Index(s[i]) < Index(s[i'])
  }

  lemma ConsInDeclarationOrder(f: Field, s: seq<Field>)
    requires InDeclarationOrder(s) && forall g :: g in s ==> Index(f) < Index(g)
    ensures InDeclarationOrder([f] + s)
  {
    var t := [f] + s;
    forall i, i' | 0 <= i < i' < |t| ensures Index(t[i]) < Index(t[i']) {
      assert t[i'] == s[i' - 1];
      if i > 0 { assert t[i] == s[i - 1]; }
    }
  }

  /** Fields listed in declaration order fail in declaration order. */
  lemma {:induction false} FailingFieldsKeepOrder(rules: FieldRules, dto: PostCreateAccountRequestDto, fields: seq<Field>)
    requires InDeclarationOrder(fields)
    ensures InDeclarationOrder(FailingFields(rules, dto, fields))
  {
    if fields != [] {
      var rest := fields[1..];
      assert forall i, i' :: 0 <= i < i' < |rest| ==> rest[i] == fields[i + 1] && rest[i'] == fields[i' + 1];
      FailingFieldsKeepOrder(rules, dto, rest);
      var tail := FailingFields(rules, dto, rest);
      if !FieldPasses(rules, dto, fields[0]) {
        forall g | g in tail ensures Index(fields[0]) < Index(g) {
          var i :| 0 <= i < |rest| && rest[i] == g;
          assert fields[i + 1] == g;
        }
        ConsInDeclarationOrder(fields[0], tail);
      }
    }
  }

  /** The first field reported is the earliest failing field. */
  lemma {:induction false} FirstFailingIsEarliest(rules: FieldRules, dto: PostCreateAccountRequestDto, fields: seq<Field>, j: nat)
    requires j < |fields| && !FieldPasses(rules, dto, fields[j])
    requires forall j' :: 0 <= j' < j ==> FieldPasses(rules, dto, fields[j'])
    ensures var fs := FailingFields(rules, dto, fields); fs != [] && fs[0] == fields[j]
  {
    if j > 0 {
      FirstFailingIsEarliest(rules, dto, fields[1..], j - 1);
    }
  }

  /** The validator reports nothing exactly when the four tagged checks pass. */
  lemma NothingFailsIffAllPass(rules: FieldRules, dto: PostCreateAccountRequestDto)
    ensures FailingFields(rules, dto, DeclarationOrder) == [] <==>
      && FieldPasses(rules, dto, AddressField) && FieldPasses(rules, dto, NameField)
      && FieldPasses(rules, dto, RankField) && FieldPasses(rules, dto, StatusField)
  {
    var fs := FailingFields(rules, dto, DeclarationOrder);
    assert DeclarationOrder[0] == AddressField && DeclarationOrder[1] == NameField;
    assert DeclarationOrder[2] == RankField && DeclarationOrder[4] == StatusField;
    if fs != [] {
      assert fs[0] in fs;
    }
  }

  /** Over the request's fields the first failing one, by declaration order, is reported first. */
  lemma FirstFailureInDeclarationOrder(rules: FieldRules, dto: PostCreateAccountRequestDto)
    ensures var fs := FailingFields(rules, dto, DeclarationOrder);
      && (!FieldPasses(rules, dto, AddressField) ==> fs != [] && fs[0] == AddressField)
      && (FieldPasses(rules, dto, AddressField) && !FieldPasses(rules, dto, NameField) ==> fs != [] && fs[0] == NameField)
      && ((FieldPasses(rules, dto, AddressField) && FieldPasses(rules, dto, NameField)
           && !FieldPasses(rules, dto, RankField)) ==> fs != [] && fs[0] == RankField)
      && ((FieldPasses(rules, dto, AddressField) && FieldPasses(rules, dto, NameField) && FieldPasses(rules, dto, RankField)
           && !FieldPasses(rules, dto, StatusField)) ==> fs != [] && fs[0] == StatusField)
      && (fs == [] <==> FieldPasses(rules, dto, AddressField) && FieldPasses(rules, dto, NameField)
                        && FieldPasses(rules, dto, RankField) && FieldPasses(rules, dto, StatusField))
  {
    NothingFailsIffAllPass(rules, dto);
    if !FieldPasses(rules, dto, AddressField) {
      FirstFailingIsEarliest(rules, dto, DeclarationOrder, 0);
    } else if !FieldPasses(rules, dto, NameField) {
      FirstFailingIsEarliest(rules, dto, DeclarationOrder, 1);
    } else if !FieldPasses(rules, dto, RankField) {
      FirstFailingIsEarliest(rules, dto, DeclarationOrder, 2);
    } else if !FieldPasses(rules, dto, StatusField) {
      FirstFailingIsEarliest(rules, dto, DeclarationOrder, 4);
    }
  }

  /**
   * `validatePostCreateAccountRequestDto`: one error per failing field. A
   * tagged field's error is reported exactly when its check fails, the
   * reported fields strictly follow declaration order (so at most one error
   * per field), and no error names Memo.
   */
  function ValidatePostCreateAccountRequestDto(rules: FieldRules, dto: PostCreateAccountRequestDto): (errs: seq<FieldError>)
    ensures var fs := FailingFields(rules, dto, DeclarationOrder);
      |errs| == |fs| && forall i :: 0 <= i < |fs| ==> errs[i] == ErrorOf(fs[i])
    ensures forall f :: ValidationTag(f).Some? ==> (ErrorOf(f) in errs <==> !FieldPasses(rules, dto, f))
    ensures InDeclarationOrder(FailingFields(rules, dto, DeclarationOrder))
    ensures forall e :: e in errs ==> e.Field != "Memo"
  {
    var fs := FailingFields(rules, dto, DeclarationOrder);
    var errs := seq(|fs|, i requires 0 <= i < |fs| => ErrorOf(fs[i]));
    assert ErrorsOf(rules, dto, errs);
    ErrorsOfFacts(rules, dto, errs);
    errs
  }

  lemma DeclarationOrderIsOrdered()
    ensures InDeclarationOrder(DeclarationOrder)
  {
    forall i, i' | 0 <= i < i' < |DeclarationOrder| ensures Index(DeclarationOrder[i]) < Index(DeclarationOrder[i']) {
      assert Index(DeclarationOrder[i]) == i && Index(DeclarationOrder[i']) == i';
    }
  }

  /** The validator's error list: the error of each failing field, in the same order. */
  ghost predicate ErrorsOf(rules: FieldRules, dto: PostCreateAccountRequestDto, errs: seq<FieldError>)
  {
    var fs := FailingFields(rules, dto, DeclarationOrder);
    |errs| == |fs| && forall i :: 0 <= i < |fs| ==> errs[i] == ErrorOf(fs[i])
  }

  /** What an error list made from the failing fields says about the request. */
  lemma ErrorsOfFacts(rules: FieldRules, dto: PostCreateAccountRequestDto, errs: seq<FieldError>)
    requires ErrorsOf(rules, dto, errs)
    ensures forall f :: ValidationTag(f).Some? ==> (ErrorOf(f) in errs <==> !FieldPasses(rules, dto, f))
    ensures InDeclarationOrder(FailingFields(rules, dto, DeclarationOrder))
    ensures forall e :: e in errs ==> e.Field != "Memo"
  {
    DeclarationOrderIsOrdered();
    FailingFieldsKeepOrder(rules, dto, DeclarationOrder);
    ErrorsNeverNameMemo(rules, dto, errs);
    forall f | ValidationTag(f).Some? ensures ErrorOf(f) in errs <==> !FieldPasses(rules, dto, f) {
      ErrorListedIffFails(rules, dto, errs, f);
    }
  }

  /** No error of the list names Memo, which carries no tag. */
  lemma ErrorsNeverNameMemo(rules: FieldRules, dto: PostCreateAccountRequestDto, errs: seq<FieldError>)
    requires ErrorsOf(rules, dto, errs)
    ensures forall e :: e in errs ==> e.Field != "Memo"
  {
    var fs := FailingFields(rules, dto, DeclarationOrder);
    forall e | e in errs ensures e.Field != "Memo" {
      var i :| 0 <= i < |errs| && errs[i] == e;
      assert fs[i] in fs;
    }
  }

  /** A tagged field's error is in the list exactly when the field's check fails. */
  lemma ErrorListedIffFails(rules: FieldRules, dto: PostCreateAccountRequestDto, errs: seq<FieldError>, f: Field)
    requires ErrorsOf(rules, dto, errs) && ValidationTag(f).Some?
    ensures ErrorOf(f) in errs <==> !FieldPasses(rules, dto, f)
  {
    var fs := FailingFields(rules, dto, DeclarationOrder);
    if ErrorOf(f) in errs {
      var i :| 0 <= i < |errs| && errs[i] == ErrorOf(f);
      assert FieldName(fs[i]) == FieldName(f);
      assert fs[i] in fs;
    }
    if !FieldPasses(rules, dto, f) {
      assert f in fs;
      var i :| 0 <= i < |fs| && fs[i] == f;
      assert errs[i] == ErrorOf(f);
    }
  }

  /** The (field, tag) pairs that have a message of their own. */
  const MessagePairs: set<FieldError> := {
    FieldError("Address", "AccountAddressValidation"),
    FieldError("Status", "AccountStatusValidation"),
    FieldError("Rank", "AccountRankValidation"),
    FieldError("Name", "AccountNameValidation")}

  /** `PostCreateAccountRequestDtoValidateErrorMessage`: the message table with its fallback. */
  function PostCreateAccountRequestDtoValidateErrorMessage(err: FieldError): (m: ErrorMessage)
    ensures err == FieldError("Address", "AccountAddressValidation") ==> m == Message("Address format is wrong")
    ensures err == FieldError("Status", "AccountStatusValidation") ==> m == Message("Status must be one of the next values: On,Off")
    ensures err == FieldError("Rank", "AccountRankValidation") ==> m == Message("Rank must be between 0 and 100")
    ensures err == FieldError("Name", "AccountNameValidation") ==> m == Message("Name must be between 1 and 255 characters")
    ensures err !in MessagePairs <==> m == DefaultFieldErrorMessage(err.Field)
  {
    AddressMessageText();
    StatusMessageText();
    RankMessageText();
    NameMessageText();
    if err.Field == "Address" && err.Tag == "AccountAddressValidation" then
      Message(err.Field + " format is wrong")
    else if err.Field == "Status" && err.Tag == "AccountStatusValidation" then
      Message(err.Field + " must be one of the next values: " + Join(AccountStatusList, ","))
    else if err.Field == "Rank" && err.Tag == "AccountRankValidation" then
      Message(err.Field + " must be between 0 and 100")
    else if err.Field == "Name" && err.Tag == "AccountNameValidation" then
      Message(err.Field + " must be between 1 and 255 characters")
    else
      DefaultFieldErrorMessage(err.Field)
  }

  /** The messages as the table formats them, with the field name in front. */
  lemma AddressMessageText()
    ensures "Address" + " format is wrong" == "Address format is wrong"
  {
  }

  lemma StatusMessageText()
    ensures "Status" + " must be one of the next values: " + Join(AccountStatusList, ",")
      == "Status must be one of the next values: On,Off"
  {
    StatusListJoined();
  }

  lemma RankMessageText()
    ensures "Rank" + " must be between 0 and 100" == "Rank must be between 0 and 100"
  {
  }

  lemma NameMessageText()
    ensures "Name" + " must be between 1 and 255 characters" == "Name must be between 1 and 255 characters"
  {
  }

  /**
   * `CreatePostCreateAccountRequestDto`: a body that does not bind gets the
   * parse message; otherwise the request is accepted when every field passes,
   * and else only the earliest failing field, in the order Address, Name,
   * Rank, Status, is reported.
   */
  function CreatePostCreateAccountRequestDto(rules: FieldRules, body: Binding): (r: Result<PostCreateAccountRequestDto, ErrorMessage>)
    ensures body.BindFailed? ==> r == Failure(DefaultQueryParseErrorMessage)
    ensures body.Bound? && !rules.isValidAddress(body.dto.Address) ==>
      r == Failure(Message("Address format is wrong"))
    ensures body.Bound? && rules.isValidAddress(body.dto.Address) && !rules.isValidName(body.dto.Name) ==>
      r == Failure(Message("Name must be between 1 and 255 characters"))
    ensures (body.Bound? && rules.isValidAddress(body.dto.Address) && rules.isValidName(body.dto.Name)
             && !rules.isValidRank(body.dto.Rank as nat)) ==>
      r == Failure(Message("Rank must be between 0 and 100"))
    ensures (body.Bound? && rules.isValidAddress(body.dto.Address) && rules.isValidName(body.dto.Name)
             && rules.isValidRank(body.dto.Rank as nat) && !AccountStatusValidation(body.dto.Status)) ==>
      r == Failure(Message("Status must be one of the next values: On,Off"))
    ensures r.Success? <==> (body.Bound? && rules.isValidAddress(body.dto.Address) && rules.isValidName(body.dto.Name)
                             && rules.isValidRank(body.dto.Rank as nat) && AccountStatusValidation(body.dto.Status))
    ensures r.Success? ==> r.value == body.dto
  {
    match body
    case BindFailed => Failure(DefaultQueryParseErrorMessage)
    case Bound(dto) =>
      FirstFailureInDeclarationOrder(rules, dto);
      var errs := ValidatePostCreateAccountRequestDto(rules, dto);
      if errs == [] then Success(dto)
      else Failure(PostCreateAccountRequestDtoValidateErrorMessage(errs[0]))
  }

  /** Memo carries no tag: changing it never changes whether, or why, a request is refused. */
  lemma MemoNeverValidated(rules: FieldRules, dto: PostCreateAccountRequestDto, memo: string)
    ensures var r := CreatePostCreateAccountRequestDto(rules, Bound(dto));
      var r' := CreatePostCreateAccountRequestDto(rules, Bound(dto.(Memo := memo)));
      r.Success? == r'.Success? && (r.Failure? ==> r == r')
  {
  }

  /**
   * The address cases of the create-account tests, given delegated checks
   * that behave as those tests expect: the zero-valued request (every field
   * empty, rank 0) reports the address first, and so does an invalid
   * address with valid other fields.
   */
  lemma AddressTestCases(rules: FieldRules)
    requires ConsistentWithTests(rules)
    ensures CreatePostCreateAccountRequestDto(rules, Bound(PostCreateAccountRequestDto("", "", 0, "", "")))
      == Failure(Message("Address format is wrong"))
    ensures CreatePostCreateAccountRequestDto(rules, Bound(PostCreateAccountRequestDto("invalid address", "John Doe", 50, "", AccountStatusOn)))
      == Failure(Message("Address format is wrong"))
  {
  }

  /** The name cases of the tests: an empty name and a 256-letter name. */
  lemma NameTestCases(rules: FieldRules)
    requires ConsistentWithTests(rules)
    ensures CreatePostCreateAccountRequestDto(rules, Bound(PostCreateAccountRequestDto(TestAddress, "", 50, "", AccountStatusOn)))
      == Failure(Message("Name must be between 1 and 255 characters"))
    ensures CreatePostCreateAccountRequestDto(rules, Bound(PostCreateAccountRequestDto(TestAddress, Repeat('a', 256), 50, "", AccountStatusOn)))
      == Failure(Message("Name must be between 1 and 255 characters"))
  {
  }

  /** The rank cases of the tests: an omitted (zero) rank and rank 101. */
  lemma RankTestCases(rules: FieldRules)
    requires ConsistentWithTests(rules)
    ensures CreatePostCreateAccountRequestDto(rules, Bound(PostCreateAccountRequestDto(TestAddress, "John Doe", 0, "", AccountStatusOn)))
      == Failure(Message("Rank must be between 0 and 100"))
    ensures CreatePostCreateAccountRequestDto(rules, Bound(PostCreateAccountRequestDto(TestAddress, "John Doe", 101, "", AccountStatusOn)))
      == Failure(Message("Rank must be between 0 and 100"))
  {
  }

  /** The status case of the tests: a status outside the list with every other field valid. */
  lemma StatusTestCase(rules: FieldRules)
    requires ConsistentWithTests(rules)
    ensures CreatePostCreateAccountRequestDto(rules, Bound(PostCreateAccountRequestDto(TestAddress, "John Doe", 50, "", "invalid status")))
      == Failure(Message("Status must be one of the next values: On,Off"))
  {
    StatusValidationOfUnquoted("invalid status");
  }

}
