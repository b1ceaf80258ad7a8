/**
 * The account response of src/modules/account/dto/account-dto.go: a
 * field-by-field copy of the entity, with the balance rendered as text and
 * the status as its string form.
 */
module AccountDtoMapping {
  import opened Common
  import opened Entities

  datatype AccountDto = AccountDto(
    Id: int,
    Address: string,
    Name: string,
    Rank: uint8,
    Memo: string,
    Balance: string,
    Status: string,
    Search: string,
    CreatedAt: int,
    UpdatedAt: int)

  /**
   * `CreateAccountDto`. `render` is `decimal.Decimal.String()`, which is not
   * part of this model. Search is never filled in.
   */
  function CreateAccountDto(account: Account, render: Decimal -> string): (d: AccountDto)
    reads account
    ensures d.Id == account.Id && d.Address == account.Address && d.Name == account.Name
    ensures d.Rank == account.Rank && d.Memo == account.Memo
    ensures d.CreatedAt == account.CreatedAt && d.UpdatedAt == account.UpdatedAt
    ensures d.Balance == render(account.Balance)
    ensures d.Status == account.Status
    ensures account.Status in AccountStatusList ==> d.Status == "On" || d.Status == "Off"
    ensures d.Search == ""
  {
    AccountDto(
      Id := account.Id,
      Address := account.Address,
      Name := account.Name,
      Rank := account.Rank,
      Memo := account.Memo,
      Balance := render(account.Balance),
      Status := account.Status,
      Search := "",
      CreatedAt := account.CreatedAt,
      UpdatedAt := account.UpdatedAt)
  }

  /** With a rendering that tells balances apart, two accounts give the same response exactly when they hold the same record. */
  lemma SameDtoIffSameRecord(a1: Account, a2: Account, render: Decimal -> string)
    requires forall x, y :: render(x) == render(y) ==> x == y
    ensures CreateAccountDto(a1, render) == CreateAccountDto(a2, render) <==> a1.Row() == a2.Row()
  {
    if CreateAccountDto(a1, render) == CreateAccountDto(a2, render) {
      assert render(a1.Balance) == render(a2.Balance);
    }
  }
}
