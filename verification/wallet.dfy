/** Wallet binding: an address shorter than 32 characters is refused;
    otherwise it becomes the wallet of the account with the signed-in id. */
module Wallet {
  import opened Types
  import opened Store
  import opened Admin

  const MIN_ADDRESS_LENGTH: int := 32

  method HandleConnect(ledger: Ledger, user: User, address: string)
    modifies ledger`users
    ensures |address| < MIN_ADDRESS_LENGTH || IndexOf(old(ledger.users), user.id) == -1 ==>
              ledger.users == old(ledger.users)
    ensures |address| >= MIN_ADDRESS_LENGTH && IndexOf(old(ledger.users), user.id) >= 0 ==>
              var i := IndexOf(old(ledger.users), user.id);
              ledger.users == old(ledger.users)[i := old(ledger.users)[i].(wallet := Some(address))]
  {
    if address == "" || |address| < MIN_ADDRESS_LENGTH {
      return;
    }
    var userIndex := IndexOf(ledger.users, user.id);
    if userIndex != -1 {
      var rec := ledger.users[userIndex];
      ledger.users := ledger.users[userIndex := rec.(wallet := Some(address))];
    }
  }

  /** Once bound, the account turns up in the administrator's search for
      its wallet address, under any query that lower-cases to the same
      text (the address itself, or it with its ASCII letters in another
      case). */
  lemma BoundWalletIsSearchable(u: User, address: string, query: string)
    requires ToLower(query) == ToLower(address)
    ensures Matches(u.(wallet := Some(address)), query)
  {
    var a := ToLower(address);
    assert a[0..|a|] == a;
    assert OccursAt(a, ToLower(query), 0);
  }
}
