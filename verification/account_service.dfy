/**
 * The create-if-absent transaction of src/modules/account/account-service.go
 * over an account table. The table is a map from address to record (the
 * unique address index) plus the next auto-increment id. `AccountStore`
 * holds it and runs the transaction as one atomic method, proved against
 * the pure step `CreateStep` on a `Table` value, about which the lemmas
 * below speak.
 */
module AccountService {
  import opened Common
  import opened Entities
  import opened Validations
  import opened CreateRequestDto

  /** Why the insert of a record failed. */
  datatype StoreError =
    | UniqueViolation      // the address index already holds the address
    | ConstraintViolation  // a column constraint of the table refuses the record
    | Fault                // the database failed for a reason outside the model

  /** What the transaction reports instead of an account. */
  datatype ServiceError = Conflict(message: string) | StoreFailure(cause: StoreError)

  /** The account table: its rows by address and the next auto-increment id. */
  datatype Table = Table(rows: map<string, AccountRow>, nextId: int)

  /** The transaction's outcome: the stored record, or the error. */
  datatype CreateOutcome = Created(account: AccountRow) | Rejected(error: ServiceError)

  /**
   * What the table guarantees: each row is filed under its own address (so
   * addresses are unique), satisfies the column constraints, has a positive
   * id below the next one, no two rows share an id, and no row was updated
   * before it was created.
   */
  ghost predicate ValidTable(t: Table)
  {
    && t.nextId >= 1
    && (forall a :: a in t.rows ==>
          && t.rows[a].Address == a
          && FitsSchema(t.rows[a])
          && 1 <= t.rows[a].Id < t.nextId
          && t.rows[a].CreatedAt <= t.rows[a].UpdatedAt)
    && (forall a, b :: a in t.rows && b in t.rows && a != b ==> t.rows[a].Id != t.rows[b].Id)
  }

  /**
   * The insert of a freshly built record (`database.CreateAccount`): it fails
   * on a database fault, on a taken address or on a violated column
   * constraint; otherwise the record gets the next id and `now` as both
   * timestamps and is filed under its address.
   */
  function Insert(t: Table, row: AccountRow, now: int, fault: bool): (r: Result<(Table, AccountRow), StoreError>)
    ensures fault ==> r == Failure(Fault)
    ensures !fault && row.Address in t.rows ==> r == Failure(UniqueViolation)
    ensures !fault && row.Address !in t.rows && !FitsSchema(row) ==> r == Failure(ConstraintViolation)
    ensures r.Success? <==> !fault && row.Address !in t.rows && FitsSchema(row)
    ensures r.Success? ==>
      var (t', stored) := r.value;
      && t'.rows == t.rows[row.Address := stored] && t'.nextId == t.nextId + 1
      && stored.Id == t.nextId && stored.CreatedAt == now && stored.UpdatedAt == now
      && (forall f :: f in FieldNames - {"Id", "CreatedAt", "UpdatedAt"} ==> Columns(stored)[f] == Columns(row)[f])
  {
    if fault then Failure(Fault)
    else if row.Address in t.rows then Failure(UniqueViolation)
    else if !FitsSchema(row) then Failure(ConstraintViolation)
    else
      var stored := row.(Id := t.nextId, CreatedAt := now, UpdatedAt := now);
      Success((Table(t.rows[row.Address := stored], t.nextId + 1), stored))
  }

  const AddressExistsMessage := "Address already exists"

  /**
   * `createAccount` as one atomic step: a taken address is a conflict;
   * otherwise the record `CreateAccount` builds from the request is inserted,
   * and a failed insert rolls the whole step back.
   */
  function CreateStep(t: Table, dto: PostCreateAccountRequestDto, now: int, fault: bool): (r: (Table, CreateOutcome))
    ensures r.1.Rejected? ==> r.0 == t
    ensures r.1.Created? ==>
      && dto.Address !in t.rows && r.0.rows == t.rows[dto.Address := r.1.account] && r.0.nextId == t.nextId + 1
  {
    if dto.Address in t.rows then (t, Rejected(Conflict(AddressExistsMessage)))
    else
      match Insert(t, NewAccountRow(dto.Address, dto.Status, dto.Name, dto.Rank, dto.Memo), now, fault)
      case Failure(e) => (t, Rejected(StoreFailure(e)))
      case Success((t', stored)) => (t', Created(stored))
  }

  class AccountStore {
    var rows: map<string, AccountRow>
    var nextId: int

    function Snapshot(): Table
      reads this
    {
      Table(rows, nextId)
    }

    ghost predicate Valid()
      reads this
    {
      ValidTable(Snapshot())
    }

    /** An empty table whose first id will be 1. */
    constructor ()
      ensures Valid() && rows == map[] && nextId == 1
    {
      rows, nextId := map[], 1;
    }

    /**
     * `createAccount`: the existence check and the insert run as one
     * transaction. The new table and the outcome are those of `CreateStep`;
     * on success the returned account is a new object holding exactly the
     * stored record, otherwise no account is returned and the error is.
     */
    method CreateAccount(dto: PostCreateAccountRequestDto, now: int, fault: bool) returns (account: Account?, err: Option<ServiceError>)
      requires Valid()
      modifies this
      ensures Valid()
      ensures Snapshot() == CreateStep(old(Snapshot()), dto, now, fault).0
      ensures var outcome := CreateStep(old(Snapshot()), dto, now, fault).1;
        && (outcome.Created? <==> account != null)
        && (outcome.Created? ==> fresh(account) && account.Row() == outcome.account && err == None)
        && (outcome.Rejected? ==> err == Some(outcome.error))
    {
      if dto.Address in rows {
        return null, Some(Conflict(AddressExistsMessage));
      }
      var newAccount := new Account(dto.Address, dto.Status, dto.Name, dto.Rank, dto.Memo);
      // the insert: database fault, unique index, column constraints, then the write
      if fault {
        return null, Some(StoreFailure(Fault));
      }
      if !FitsSchema(newAccount.Row()) {
        return null, Some(StoreFailure(ConstraintViolation));
      }
      newAccount.Id, newAccount.CreatedAt, newAccount.UpdatedAt := nextId, now, now;
      rows := rows[newAccount.Address := newAccount.Row()];
      nextId := nextId + 1;
      CreatePreservesValid(old(Snapshot()), dto, now, fault);
      return newAccount, None;
    }
  }

  /** The transaction keeps every guarantee of the table. */
  lemma CreatePreservesValid(t: Table, dto: PostCreateAccountRequestDto, now: int, fault: bool)
    requires ValidTable(t)
    ensures ValidTable(CreateStep(t, dto, now, fault).0)
  {
    var (t', outcome) := CreateStep(t, dto, now, fault);
    if outcome.Created? {
      var stored := outcome.account;
      assert t'.rows == t.rows[dto.Address := stored];
      forall a, b | a in t'.rows && b in t'.rows && a != b ensures t'.rows[a].Id != t'.rows[b].Id {
        if a == dto.Address {
          assert t.rows[b].Id < t.nextId;
        } else if b == dto.Address {
          assert t.rows[a].Id < t.nextId;
        }
      }
    }
  }

  /** The transaction succeeds exactly when the address is free, the database does not fail and the record fits the columns. */
  lemma CreateOutcomeIff(t: Table, dto: PostCreateAccountRequestDto, now: int, fault: bool)
    ensures CreateStep(t, dto, now, fault).1.Created?
      <==> dto.Address !in t.rows && !fault && FitsSchema(NewAccountRow(dto.Address, dto.Status, dto.Name, dto.Rank, dto.Memo))
  {
  }

  /** A taken address is a conflict with "Address already exists", and the table, with the existing record, is left as it was. */
  lemma ConflictLeavesTable(t: Table, dto: PostCreateAccountRequestDto, now: int, fault: bool)
    requires dto.Address in t.rows
    ensures CreateStep(t, dto, now, fault) == (t, Rejected(Conflict("Address already exists")))
  {
  }

  /**
   * A success adds exactly one record, under the request's address: it holds
   * the request's address, status, name, rank and memo, a zero balance, the
   * next id and `now` as both timestamps, and it is the record returned.
   * Every other record is unchanged.
   */
  lemma SuccessAddsOneRecord(t: Table, dto: PostCreateAccountRequestDto, now: int, fault: bool)
    requires CreateStep(t, dto, now, fault).1.Created?
    ensures var (t', outcome) := CreateStep(t, dto, now, fault);
      var r := outcome.account;
      && t'.rows.Keys == t.rows.Keys + {dto.Address}
      && dto.Address !in t.rows
      && |t'.rows| == |t.rows| + 1
      && t'.rows[dto.Address] == r
      && (forall a :: a in t.rows ==> t'.rows[a] == t.rows[a])
      && r.Address == dto.Address && r.Status == dto.Status && r.Name == dto.Name
      && r.Rank == dto.Rank && r.Memo == dto.Memo && r.Balance == 0
      && r.Id == t.nextId && t'.nextId == t.nextId + 1
      && r.CreatedAt == now && r.UpdatedAt == now
  {
    var t' := CreateStep(t, dto, now, fault).0;
    assert t'.rows == t.rows[dto.Address := CreateStep(t, dto, now, fault).1.account];
  }

  /**
   * Two transactions for one address, run one after the other (as the
   * transaction's isolation makes them): whatever the second request holds,
   * once the first has succeeded the second is a conflict and changes nothing.
   */
  lemma SecondCreateConflicts(t: Table, dto1: PostCreateAccountRequestDto, dto2: PostCreateAccountRequestDto,
                              now1: int, now2: int, fault1: bool, fault2: bool)
    requires dto1.Address == dto2.Address
    requires CreateStep(t, dto1, now1, fault1).1.Created?
    ensures var t1 := CreateStep(t, dto1, now1, fault1).0;
      CreateStep(t1, dto2, now2, fault2) == (t1, Rejected(Conflict(AddressExistsMessage)))
  {
    SuccessAddsOneRecord(t, dto1, now1, fault1);
  }

  /**
   * A status that passes validation only because of its quotes reaches the
   * table verbatim and is refused by the status column, so the request that
   * validated ends in a store failure rather than a stored account.
   */
  lemma QuotedStatusRefusedByTable(t: Table, dto: PostCreateAccountRequestDto, now: int)
    requires dto.Status == "\"On\"" && dto.Address !in t.rows
    ensures AccountStatusValidation(dto.Status)
    ensures CreateStep(t, dto, now, false).1 == Rejected(StoreFailure(ConstraintViolation))
  {
    QuotedStatusAccepted();
  }

  /**
   * The memo carries no validation tag, so an overlong memo reaches the
   * table, whose `text` column refuses it.
   */
  lemma OverlongMemoRefusedByTable(t: Table, dto: PostCreateAccountRequestDto, now: int)
    requires |dto.Memo| > MemoMaxChars && dto.Address !in t.rows
    ensures CreateStep(t, dto, now, false) == (t, Rejected(StoreFailure(ConstraintViolation)))
  {
  }

}
