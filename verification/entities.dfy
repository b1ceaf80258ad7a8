/**
 * The account record of src/database/entities/account.go: the status
 * constants, the record itself, its constructor and the two mutators that
 * overwrite one field plus `UpdatedAt` and report the change set that the
 * store applies.
 */
module Entities {
  import opened Common
  import opened GoStrings

  /** `AccountStatus` is a named Go string type: any string can be held. */
  type AccountStatus = string

  const AccountStatusOn: AccountStatus := "On"
  const AccountStatusOff: AccountStatus := "Off"

  /** `AccountStatusList`, in declaration order. */
  const AccountStatusList: seq<string> := [AccountStatusOn, AccountStatusOff]

  /** A `decimal(64,8)` balance, as a whole number of 10^-8 units. */
  type Decimal = int

  /** A value stored in one column, as the change maps carry it. */
  datatype FieldValue =
    | Int64Value(i: int)
    | TextValue(s: string)
    | RankValue(r: uint8)
    | DecimalValue(d: Decimal)
    | StatusValue(st: AccountStatus)

  /** The names of the record's fields, which are also the keys of a change map. */
  const FieldNames: set<string> :=
    {"Id", "Name", "Rank", "Memo", "Address", "Balance", "Status", "CreatedAt", "UpdatedAt"}

  /** One account row as a value: what the table holds and what a pointer to an `Account` currently reads. */
  datatype AccountRow = AccountRow(
    Id: int,
    Name: string,
    Rank: uint8,
    Memo: string,
    Address: string,
    Balance: Decimal,
    Status: AccountStatus,
    CreatedAt: int,
    UpdatedAt: int)

  /** The record seen field by field, keyed by field name. */
  function Columns(r: AccountRow): (m: map<string, FieldValue>)
    ensures m.Keys == FieldNames
  {
    map[
      "Id" := Int64Value(r.Id), "Name" := TextValue(r.Name), "Rank" := RankValue(r.Rank),
      "Memo" := TextValue(r.Memo), "Address" := TextValue(r.Address),
      "Balance" := DecimalValue(r.Balance), "Status" := StatusValue(r.Status),
      "CreatedAt" := Int64Value(r.CreatedAt), "UpdatedAt" := Int64Value(r.UpdatedAt)]
  }

  /** The column view loses nothing: two rows agree on every field name exactly when they are equal. */
  lemma ColumnsInjective(r1: AccountRow, r2: AccountRow)
    ensures Columns(r1) == Columns(r2) <==> r1 == r2
  {
    if Columns(r1) == Columns(r2) {
      var c1, c2 := Columns(r1), Columns(r2);
      assert c1["Id"] == c2["Id"] && c1["Name"] == c2["Name"] && c1["Rank"] == c2["Rank"];
      assert c1["Memo"] == c2["Memo"] && c1["Address"] == c2["Address"] && c1["Balance"] == c2["Balance"];
      assert c1["Status"] == c2["Status"] && c1["CreatedAt"] == c2["CreatedAt"] && c1["UpdatedAt"] == c2["UpdatedAt"];
    }
  }

  /** The fields whose values differ between two rows. */
  ghost function ChangedFields(before: AccountRow, after: AccountRow): set<string>
  {
    set k | k in FieldNames && Columns(before)[k] != Columns(after)[k]
  }

  /** `text` holds at most 65,535 bytes; a character takes at least one byte. */
  const MemoMaxChars := 65535

  /** `decimal(64,8)` keeps 56 integer digits: in 10^-8 units, a balance stays below 10^64 in magnitude. */
  const BalanceBound := 10000000000000000000000000000000000000000000000000000000000000000

  /**
   * The table's column constraints: `enum('On','Off')` for Status,
   * `check:rank <= 100` for Rank, `varchar(255)` for Name, `varchar(64)` for
   * Address, `decimal(64,8)` for Balance and `text` for Memo. The memo bound
   * counts characters, so it is necessary but not sufficient for the
   * column's byte limit.
   */
  predicate FitsSchema(r: AccountRow)
  {
    && r.Status in AccountStatusList && r.Rank <= 100 && |r.Name| <= 255 && |r.Address| <= 64
    && |r.Memo| <= MemoMaxChars && -BalanceBound < r.Balance < BalanceBound
  }

  /** The record `CreateAccount` builds: the five given fields, every other field at its zero value. */
  function NewAccountRow(address: string, status: AccountStatus, name: string, rank: uint8, memo: string): AccountRow
  {
    AccountRow(0, name, rank, memo, address, 0, status, 0, 0)
  }

  class Account {
    var Id: int
    var Name: string
    var Rank: uint8
    var Memo: string
    var Address: string
    var Balance: Decimal
    var Status: AccountStatus
    var CreatedAt: int
    var UpdatedAt: int

    /** What the object currently holds. */
    function Row(): AccountRow
      reads this
    {
      AccountRow(Id, Name, Rank, Memo, Address, Balance, Status, CreatedAt, UpdatedAt)
    }

    /** `CreateAccount`: the given fields copied, Id, Balance and both timestamps zero. */
    constructor (address: string, status: AccountStatus, name: string, rank: uint8, memo: string)
      ensures Row() == NewAccountRow(address, status, name, rank, memo)
      ensures Address == address && Status == status && Name == name && Rank == rank && Memo == memo
      ensures Id == 0 && Balance == 0 && CreatedAt == 0 && UpdatedAt == 0
    {
      Id, Balance, CreatedAt, UpdatedAt := 0, 0, 0, 0;
      Address, Status, Name, Rank, Memo := address, status, name, rank, memo;
    }

    /**
     * `UpdateBalance`: sets Balance and stamps UpdatedAt with the clock value
     * `now`. The returned change map names exactly the two fields, carries
     * their new values, and applying it over the old record gives the new one.
     */
    method UpdateBalance(balance: Decimal, now: int) returns (changes: map<string, FieldValue>)
      modifies this
      ensures Balance == balance && UpdatedAt == now
      ensures Row() == old(Row()).(Balance := balance, UpdatedAt := now)
      ensures changes.Keys == {"Balance", "UpdatedAt"}
      ensures forall k :: k in changes ==> changes[k] == Columns(Row())[k]
      ensures Columns(Row()) == Columns(old(Row())) + changes
      ensures ChangedFields(old(Row()), Row()) <= changes.Keys
      ensures old(FitsSchema(Row())) && -BalanceBound < balance < BalanceBound ==> FitsSchema(Row())
    {
      Balance := balance;
      UpdatedAt := now;
      changes := map["Balance" := DecimalValue(Balance), "UpdatedAt" := Int64Value(UpdatedAt)];
    }

    /**
     * `UpdateStatus`: sets Status and stamps UpdatedAt with `now`; the change
     * map names exactly Status and UpdatedAt. A status from the list keeps
     * the record within the table's constraints.
     */
    method UpdateStatus(status: AccountStatus, now: int) returns (changes: map<string, FieldValue>)
      modifies this
      ensures Status == status && UpdatedAt == now
      ensures Row() == old(Row()).(Status := status, UpdatedAt := now)
      ensures changes.Keys == {"Status", "UpdatedAt"}
      ensures forall k :: k in changes ==> changes[k] == Columns(Row())[k]
      ensures Columns(Row()) == Columns(old(Row())) + changes
      ensures ChangedFields(old(Row()), Row()) <= changes.Keys
      ensures old(FitsSchema(Row())) && status in AccountStatusList ==> FitsSchema(Row())
    {
      Status := status;
      UpdatedAt := now;
      changes := map["Status" := StatusValue(Status), "UpdatedAt" := Int64Value(UpdatedAt)];
    }
  }

  /** The status list is exactly On then Off. */
  lemma StatusListIsOnOff()
    ensures AccountStatusList == ["On", "Off"]
    ensures forall s :: s in AccountStatusList <==> s == "On" || s == "Off"
  {
  }

  /** Joined with commas, the status list reads `On,Off`. */
  lemma StatusListJoined()
    ensures Join(AccountStatusList, ",") == "On,Off"
  {
    assert AccountStatusList[1..] == ["Off"];
  }
}
