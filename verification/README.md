# Account creation: a Dafny model

This project models the account-creation path of a small Go (gin + gorm) administrative API for
"account" records, and proves properties of it:

- **The account entity** (`Entities`). It has the `On`/`Off` status constants and their list,
  and the `Account` record with its nine fields. `CreateAccount` is modelled as the class
  constructor. `UpdateBalance` and `UpdateStatus` are methods that overwrite one field,
  stamp `UpdatedAt` and return the change map that the store applies.
- **The field validators** (`Validations`):
  - The status check strips surrounding `"` characters, then compares exactly with `On`/`Off`.
  - `NotEmpty` is a white-space test.
  - The address, name and rank checks call utilities that are not part of this model. Here they
    are the three predicates of a `FieldRules` value. `AccountAddressValidation`,
    `AccountNameValidation` and `AccountRankValidation` apply these predicates to the field value.
  - `ConsistentWithTests` collects what the create-account tests require of those predicates.
- **Go's string helpers** (`GoStrings`). `strings.Trim`/`TrimFunc`, `TrimSpace` (with Go's
  `unicode.IsSpace` class written out) and `Join`.
- **The create request** (`CreateRequestDto`):
  - the DTO's fields in declaration order, with their validation tags;
  - the validator's pass over the fields;
  - the (field, tag) → message table;
  - the request builder, which reports only the first error.
- **The response mapping** (`AccountDtoMapping`). A field-by-field copy of the entity.
- **The create-if-absent transaction** (`AccountService`):
  - The account table is a map from address to record, plus the next auto-increment id.
  - `AccountStore.CreateAccount` runs the existence check and the insert as one atomic method.
    It is proved against the pure step `CreateStep`, and the lemmas about the transaction are
    stated on that step.

Modelling choices:
- A balance is a whole number of 10⁻⁸ units, matching the `decimal(64,8)` column.
- Times are Unix timestamps. The clock reading is passed in as `now`.
- The failure of the insert for reasons outside the model is the `fault` parameter.
- The insert also refuses a record that breaks the column constraints declared on the entity:
  - the `enum('On','Off')` status;
  - the `rank <= 100` check;
  - the `varchar(255)` name;
  - the `varchar(64)` address;
  - the `decimal(64,8)` balance, whose magnitude stays below 10⁶⁴ units of 10⁻⁸;
  - the `text` memo, at most 65,535 characters. The column's limit is 65,535 bytes, and a
    character takes at least one byte, so this bound is necessary but not sufficient.

  These refusals are assumptions about the database that the code does not fix. The enum, decimal, text,
  varchar and tinyint refusals hold only under MySQL's strict SQL mode; without it, a quoted
  status would be stored as `''` with a warning. The `CHECK` constraint on rank is enforced
  only from MySQL 8.0.16 on.

  So the table invariant `ValidTable` holds after every transaction. The invariant says:
  addresses are unique, every row fits the columns, ids are distinct and below the next id,
  and `CreatedAt <= UpdatedAt`.
- The status validator trims quotes, so a status written as `"On"` *with* its quotes passes
  validation. The entity then stores it verbatim, and the status column refuses it
  (`QuotedStatusRefusedByTable`).
- The validation-error loop in `CreatePostCreateAccountRequestDto` returns in its first
  iteration, so it is modelled as taking the head of the validator's error list.
- The JSON binding is the `Binding` input. `Bound(dto)` is a body that bound; `BindFailed` is
  one that did not.

## Model

| member | source | states |
|---|---|---|
| `Entities.StatusListIsOnOff` | src/database/entities/account.go:13-18 | the status list is exactly `["On", "Off"]`, in that order, and a string is in it iff it is `On` or `Off` |
| `Entities.StatusListJoined` | src/modules/account/dto/post-create-account-request-dto.go:64 | the status list joined with `,` is `On,Off` |
| `Entities.Columns` | src/database/entities/account.go:20-30 | the field-by-name view of a record has exactly the nine field names as keys |
| `Entities.ColumnsInjective` | src/database/entities/account.go:20-30 | two records have equal field-by-name views iff they are equal, so a change map over that view describes a record change exactly |
| `Entities.Account.constructor` | src/database/entities/account.go:37-45 | address, status, name, rank and memo are copied verbatim; Id, Balance, CreatedAt and UpdatedAt are zero, so the balance is 0 |
| `Entities.Account.UpdateBalance` | src/database/entities/account.go:47-54 | afterwards Balance = `balance` and UpdatedAt = `now`, and nothing else changes; the returned map has exactly the keys {Balance, UpdatedAt} with the new values; the old record overridden by the map is the new record; the column constraints are kept when the new balance fits the `decimal(64,8)` column |
| `Entities.Account.UpdateStatus` | src/database/entities/account.go:56-63 | afterwards Status = `status` and UpdatedAt = `now`, and nothing else changes; the returned map has exactly the keys {Status, UpdatedAt}; the old record overridden by the map is the new record; a listed status keeps the column constraints |
| `GoStrings.FirstKept` | src/common/validations/validations.go:15 | the first position whose character is outside the cut class: every character before it is in the class, and it is the end of the string or holds a kept character |
| `GoStrings.LastKept` | src/common/validations/validations.go:15 | one past the last kept character: every character after it is in the cut class, and it is the left limit or follows a kept character |
| `GoStrings.Trim` | src/common/validations/validations.go:15 | the result is the input with nothing but cut characters around it, and it neither starts nor ends with a cut character |
| `GoStrings.FirstKeptAt` | src/common/validations/validations.go:15 | a position with only cut characters before it and a kept character at it is the first kept position |
| `GoStrings.LastKeptAt` | src/common/validations/validations.go:15 | a position with only cut characters from it on and a kept character just before it is one past the last kept one |
| `GoStrings.TrimEmptyIff` | src/common/validations/validations.go:30 | the trimmed string is empty iff every character of the input is a cut character |
| `GoStrings.TrimEqualsIff` | src/common/validations/validations.go:15-17 | for a word that neither starts nor ends with a cut character, trimming gives that word iff the input is the word padded only with cut characters |
| `GoStrings.TrimOfPadding` | src/common/validations/validations.go:15 | trimming a word padded with cut characters gives the word |
| `GoStrings.TrimIdempotent` | src/common/validations/validations.go:15 | trimming twice gives the same as trimming once |
| `GoStrings.Repeat` | test/tests/account/account.go:648 | `strings.Repeat` of one character gives `n` copies of it |
| `Validations.AccountStatusValidation` | src/common/validations/validations.go:13-21 | true iff the value is `On` or `Off` with nothing but `"` characters around it |
| `Validations.AccountAddressValidation` | src/common/validations/validations.go:23-26 | is the `FieldRules` address predicate on the field value |
| `Validations.AccountRankValidation` | src/common/validations/validations.go:33-36 | is the `FieldRules` rank predicate on the field's unsigned value |
| `Validations.AccountNameValidation` | src/common/validations/validations.go:38-41 | is the `FieldRules` name predicate on the field value |
| `Validations.NotEmpty` | src/common/validations/validations.go:28-31 | false iff the value is empty or made only of white-space characters |
| `Validations.StatusValidationOfStripped` | src/common/validations/validations.go:15 | validating the already-stripped value gives the same answer as validating the value |
| `Validations.StatusValidationOfUnquoted` | src/common/validations/validations.go:16-20 | for a value without surrounding quotes, it passes iff it is in the status list |
| `Validations.StatusValidationRejects` | src/common/validations/validations.go:16-20 | `on` and `OFF` fail (the comparison is case-sensitive), and so do the empty string and any string made only of quotes |
| `Validations.QuotedStatusAccepted` | src/common/validations/validations.go:15-18 | `"On"` with its quotes passes, although it is not in the status list |
| `CreateRequestDto.Index` | src/modules/account/dto/post-create-account-request-dto.go:15-21 | each field's position in struct declaration order |
| `CreateRequestDto.FailingFields` | src/modules/account/dto/post-create-account-request-dto.go:33-35 | a field is reported iff it is among the fields checked and its tagged check fails; only tagged fields (never Memo) can fail |
| `CreateRequestDto.ConsInDeclarationOrder` | src/modules/account/dto/post-create-account-request-dto.go:15-21 | putting a field in front of later fields keeps declaration order |
| `CreateRequestDto.FailingFieldsKeepOrder` | src/modules/account/dto/post-create-account-request-dto.go:33-35 | fields checked in declaration order are reported in declaration order |
| `CreateRequestDto.FirstFailingIsEarliest` | src/modules/account/dto/post-create-account-request-dto.go:46-50 | the first field reported is the earliest failing field |
| `CreateRequestDto.NothingFailsIffAllPass` | src/modules/account/dto/post-create-account-request-dto.go:33-35 | the validator reports nothing iff the Address, Name, Rank and Status checks all pass |
| `CreateRequestDto.FirstFailureInDeclarationOrder` | src/modules/account/dto/post-create-account-request-dto.go:15-21 | over Address, Name, Rank, Memo, Status, the first failing field is reported first, and nothing is reported iff Address, Name, Rank and Status all pass |
| `CreateRequestDto.DeclarationOrderIsOrdered` | src/modules/account/dto/post-create-account-request-dto.go:15-21 | the declared field order is strictly increasing by position |
| `CreateRequestDto.ErrorsOfFacts` | src/modules/account/dto/post-create-account-request-dto.go:33-35 | an error list made from the failing fields lists a tagged field's error iff its check fails, follows declaration order strictly, and never names Memo |
| `CreateRequestDto.ErrorsNeverNameMemo` | src/modules/account/dto/post-create-account-request-dto.go:19 | no error of such a list names Memo, which carries no tag |
| `CreateRequestDto.ErrorListedIffFails` | src/modules/account/dto/post-create-account-request-dto.go:16-20 | a tagged field's error is in such a list iff the field's check fails |
| `CreateRequestDto.ValidatePostCreateAccountRequestDto` | src/modules/account/dto/post-create-account-request-dto.go:33-35 | one (field, tag) error per failing field: a tagged field's error is reported iff its check fails, the reported fields strictly follow declaration order (so at most one error per field), and no error names Memo |
| `CreateRequestDto.AddressMessageText` | src/modules/account/dto/post-create-account-request-dto.go:62 | the formatted address message reads `Address format is wrong` |
| `CreateRequestDto.StatusMessageText` | src/modules/account/dto/post-create-account-request-dto.go:64 | the formatted status message reads `Status must be one of the next values: On,Off` |
| `CreateRequestDto.RankMessageText` | src/modules/account/dto/post-create-account-request-dto.go:66 | the formatted rank message reads `Rank must be between 0 and 100` |
| `CreateRequestDto.NameMessageText` | src/modules/account/dto/post-create-account-request-dto.go:68 | the formatted name message reads `Name must be between 1 and 255 characters` |
| `CreateRequestDto.PostCreateAccountRequestDtoValidateErrorMessage` | src/modules/account/dto/post-create-account-request-dto.go:59-73 | the four (field, tag) pairs get their four messages; any other pair gets the default field message for its field, and only such pairs do |
| `CreateRequestDto.CreatePostCreateAccountRequestDto` | src/modules/account/dto/post-create-account-request-dto.go:38-53 | a body that does not bind gets the parse message. Otherwise the first failing check in the order Address, Name, Rank, Status decides the one message reported. The request is accepted, unchanged, iff all four checks pass |
| `CreateRequestDto.MemoNeverValidated` | src/modules/account/dto/post-create-account-request-dto.go:19 | changing the memo never changes whether, or with which message, a request is refused |
| `CreateRequestDto.AddressTestCases` | test/tests/account/account.go:606-622 | with delegated checks that behave as the tests expect, the zero-valued request (every field empty, rank 0) and an invalid address both report `Address format is wrong` |
| `CreateRequestDto.NameTestCases` | test/tests/account/account.go:634-654 | a missing name and a 256-letter name, with the other fields valid, report the name message |
| `CreateRequestDto.RankTestCases` | test/tests/account/account.go:655-675 | an omitted (zero) rank and rank 101 report the rank message |
| `CreateRequestDto.StatusTestCase` | test/tests/account/account.go:623-633 | the status `invalid status`, with the other fields valid, reports the status message listing `On,Off` |
| `AccountDtoMapping.CreateAccountDto` | src/modules/account/dto/account-dto.go:20-32 | Id, Address, Name, Rank, Memo and both timestamps are copied; Balance is the rendered balance; Status is the status string, so `On` or `Off` for a listed status; Search is empty |
| `AccountDtoMapping.SameDtoIffSameRecord` | src/modules/account/dto/account-dto.go:20-32 | with a rendering that tells balances apart, two accounts give the same response iff they hold the same record |
| `AccountService.Insert` | src/modules/account/account-service.go:23-28 | a database fault, a taken address, or a record outside the column constraints fails the insert, with that error in that order. Otherwise the record is filed under its address with the next id and `now` as both timestamps, every other column as built, and the next id advances |
| `AccountService.CreateStep` | src/modules/account/account-service.go:17-35 | any refusal, a conflict or a failed insert, rolls back: the table's rows are unchanged. A success files the returned record under the request's free address and advances the next id |
| `AccountService.AccountStore.constructor` | src/modules/account/account-service.go:19 | an empty table that satisfies the table invariant, with next id 1 |
| `AccountService.AccountStore.CreateAccount` | src/modules/account/account-service.go:17-35 | the new table and the outcome are those of `CreateStep`, and the table invariant is kept; on success the returned account is a new object holding exactly the stored record and no error; otherwise there is no account, and the error is returned |
| `AccountService.CreatePreservesValid` | src/modules/account/account-service.go:19-30 | the transaction keeps addresses unique, rows within the column constraints, ids distinct and below the next id, and `CreatedAt <= UpdatedAt` |
| `AccountService.CreateOutcomeIff` | src/modules/account/account-service.go:20-28 | success iff the address is free, the insert does not fail, and the record fits the columns |
| `AccountService.ConflictLeavesTable` | src/modules/account/account-service.go:20-22 | a taken address gives a conflict with `Address already exists`, and leaves the table, including the existing record, exactly as it was |
| `AccountService.SuccessAddsOneRecord` | src/modules/account/account-service.go:23-25 | on success, exactly one record is added under the request's address. It holds the request's address, status, name, rank and memo, a zero balance, the next id, and `now` as both timestamps. It is the record returned. Every other record is unchanged |
| `AccountService.SecondCreateConflicts` | src/modules/account/account-service.go:19-22 | once a create for an address has succeeded, a later create for that address conflicts and changes nothing |
| `AccountService.QuotedStatusRefusedByTable` | src/common/validations/validations.go:15 | a status `"On"` with its quotes passes validation, but with a free address the insert is refused by the status column |
| `AccountService.OverlongMemoRefusedByTable` | src/database/entities/account.go:24 | a memo longer than the `text` column allows, which no validation checks, makes the insert fail with a constraint violation and leaves the table unchanged |

## Left out

- Listing accounts (the order-by parser and the filtered, paginated query). Their code is not part of this model, and `getAccounts` only passes its arguments through.
- The address, name and rank utilities are not part of this model. They appear only as the predicates of `FieldRules`, constrained only by what the tests expect of them (`ConsistentWithTests`).
- The error-message package is not part of this model. The default field message and the default parse message stay symbolic (`DefaultFieldErrorMessage(field)`, `DefaultQueryParseErrorMessage`).
- HTTP glue is left out: gin handlers, JSON binding (an input here), the error responders, and the `X-API-Key` check. The go-playground validator's registration and reflection are left out too. The validator is modelled by its outcome: per-field checks run in declaration order.
- `decimal.Decimal` arithmetic and `String()` are left out. The rendering is the `render` parameter of `CreateAccountDto`.
- The wall clock is the `now` parameter. The tests' "timestamps are not before the request started" holds whenever the clock reading `now` at insert is not earlier than the start.
- `database.IsAddressExists` and `database.CreateAccount` are not part of this model. They are modelled as a map lookup and as gorm's insert: auto-increment id, `now` as both timestamps, the unique address index, and the column constraints. Other database failures are the `fault` flag.
- Transaction isolation and concurrent creates for the same address are left out. The transaction is one atomic method, and two creates are modelled run one after the other (`SecondCreateConflicts`).
- AccountService.CreateStep: address equality is exact, which assumes a binary collation on the `address` column. Under MySQL's default case- and accent-insensitive collation, the `address = ?` lookup and the unique index would also treat case or accent variants of a stored address as taken; the model creates them.
- AccountService.CreateStep: auto-increment values used up by an insert that ran and was then rolled back are not modelled. On a refusal only the rows are unchanged; the database's next id may already have moved on, and the model keeps `nextId`.
- 64-bit wrap-around of ids and timestamps is not modelled: ids and times are unbounded integers.
- Names and addresses are sequences of Unicode scalar values; their byte encoding is not modelled.
- Name validation: the name reaches the name utility untrimmed (src/common/validations/validations.go:39-40); whether that utility trims is left to `FieldRules`.
- `NotEmpty` is modelled, but no field of the create request carries its tag, so it takes no part in request validation.
- On a refusal the builder also returns the partly filled DTO value alongside the error. The model returns only the error.
- The validator returns either no error or at least one field error, so the empty error list (which would let the request through) and the type assertion on the error are not modelled separately.
