/** The administration panel: direct account edits (with a logged manual
    adjustment when points change), block toggling, deletion, the global
    airdrop, giveaway maintenance and the account search. Each handler
    computes new lists from the old ones and then commits them. */
module Admin {
  import opened Types
  import opened Store

  // ----- Account edits -----

  /** Every record with the edited record's id is replaced by it. */
  function UpdateUser(users: seq<User>, updated: User): (r: seq<User>)
    ensures |r| == |users|
    ensures forall i :: 0 <= i < |users| ==>
              r[i] == (if users[i].id == updated.id then updated else users[i])
  {
    if users == [] then []
    else [if users[0].id == updated.id then updated else users[0]] + UpdateUser(users[1..], updated)
  }

  /** The MANUAL_ADJUSTMENT an edit logs: present exactly when the list held
      a record with that id whose points differ, and its amount is the
      signed change. */
  function Adjustment(users: seq<User>, updated: User, now: int): (t: Option<Transaction>)
    ensures t.Some? <==> IndexOf(users, updated.id) >= 0 && users[IndexOf(users, updated.id)].points != updated.points
    ensures t.Some? ==> t.value.kind == MANUAL_ADJUSTMENT && t.value.userId == updated.id &&
                        users[IndexOf(users, updated.id)].points + t.value.amount == updated.points
  {
    var i := IndexOf(users, updated.id);
    if i >= 0 && users[i].points != updated.points then
      Some(Tx(updated.id, updated.username, MANUAL_ADJUSTMENT, updated.points - users[i].points, now))
    else None
  }

  /** An edit that touches only the wallet or the blocked flag logs nothing. */
  lemma NonPointEditLogsNothing(users: seq<User>, i: int, wallet: Option<string>, blocked: bool, now: int)
    requires 0 <= i < |users| && IndexOf(users, users[i].id) == i
    ensures Adjustment(users, users[i].(wallet := wallet, blocked := blocked), now) == None
  {
  }

  /** Edits may leave an account below zero: nothing checks the new points. */
  lemma EditCanMakePointsNegative(u: User)
    requires u.points == 0
    ensures var r := UpdateUser([u], u.(points := -1));
      PointsNonNegative([u]) && !PointsNonNegative(r)
  {
    var r := UpdateUser([u], u.(points := -1));
    assert r[0].points == -1;
  }

  method HandleUpdateUser(ledger: Ledger, updated: User, now: int)
    modifies ledger`users, ledger`transactions
    ensures ledger.users == UpdateUser(old(ledger.users), updated)
    ensures var t := Adjustment(old(ledger.users), updated, now);
      ledger.transactions == (if t.Some? then [t.value] else []) + old(ledger.transactions)
  {
    var before := ledger.users;
    ledger.users := UpdateUser(before, updated);
    var t := Adjustment(before, updated, now);
    if t.Some? {
      ledger.AddTransaction(t.value.userId, t.value.username, t.value.kind, t.value.amount, now);
    }
  }

  /** The record with the blocked flag flipped and nothing else changed. */
  function ToggledBlock(u: User): (r: User)
    ensures r.blocked == !u.blocked
    ensures r.(blocked := u.blocked) == u
  {
    u.(blocked := !u.blocked)
  }

  /** Toggling a listed account's block logs nothing. */
  lemma ToggleBlockLogsNothing(users: seq<User>, u: User, now: int)
    requires Current(users, Some(u))
    ensures Adjustment(users, ToggledBlock(u), now) == None
  {
  }

  method ToggleBlockUser(ledger: Ledger, u: User, now: int)
    requires Current(ledger.users, Some(u))
    modifies ledger`users, ledger`transactions
    ensures ledger.users == UpdateUser(old(ledger.users), ToggledBlock(u))
    ensures ledger.transactions == old(ledger.transactions)
  {
    ToggleBlockLogsNothing(ledger.users, u, now);
    HandleUpdateUser(ledger, ToggledBlock(u), now);
  }

  // ----- Deletion -----

  /** The list without the records that carry `id`, the rest in order. */
  function DeleteUser(users: seq<User>, id: int): (r: seq<User>)
    ensures |r| <= |users|
    ensures forall u :: u in r <==> u in users && u.id != id
  {
    if users == [] then []
    else (if users[0].id == id then [] else [users[0]]) + DeleteUser(users[1..], id)
  }

  /** Deletion works element by element, so the survivors keep their order. */
  lemma {:induction false} DeleteUserDistributes(a: seq<User>, b: seq<User>, id: int)
    ensures DeleteUser(a + b, id) == DeleteUser(a, id) + DeleteUser(b, id)
  {
    if a == [] {
      assert a + b == b;
    } else {
      assert (a + b)[1..] == a[1..] + b;
      DeleteUserDistributes(a[1..], b, id);
    }
  }

  /** Deleting an id nobody has changes nothing. */
  lemma {:induction false} DeleteAbsentUser(users: seq<User>, id: int)
    requires forall i :: 0 <= i < |users| ==> users[i].id != id
    ensures DeleteUser(users, id) == users
  {
    if users != [] {
      DeleteAbsentUser(users[1..], id);
    }
  }

  /** Deletion is confirmed by the operator and never touches the log. */
  method HandleDeleteUser(ledger: Ledger, id: int, confirmed: bool)
    modifies ledger`users
    ensures ledger.users == if confirmed then DeleteUser(old(ledger.users), id) else old(ledger.users)
  {
    if confirmed {
      ledger.users := DeleteUser(ledger.users, id);
    }
  }

  // ----- Global airdrop -----

  /** Every account except the administrator gains `amount` points. */
  function Airdrop(users: seq<User>, amount: int): (r: seq<User>)
    ensures |r| == |users|
    ensures forall i :: 0 <= i < |users| ==>
              r[i] == (if users[i].username == ADMIN_NAME then users[i]
                       else users[i].(points := users[i].points + amount))
  {
    if users == [] then []
    else [if users[0].username == ADMIN_NAME then users[0] else users[0].(points := users[0].points + amount)]
         + Airdrop(users[1..], amount)
  }

  /** The amount the aggregate AIRDROP entry records: the per-account amount
      times the number of accounts in the list, administrator included. */
  function AirdropLogAmount(users: seq<User>, amount: int): (r: int)
    ensures users == [] ==> r == 0
    ensures amount >= 0 ==> r >= amount * NonAdminCount(users)
    ensures amount > 0 && NonAdminCount(users) < |users| ==> r > amount * NonAdminCount(users)
  {
    amount * |users|
  }

  function TotalPoints(users: seq<User>): int
  {
    if users == [] then 0 else users[0].points + TotalPoints(users[1..])
  }

  function NonAdminCount(users: seq<User>): (n: nat)
    ensures n <= |users|
  {
    if users == [] then 0 else (if users[0].username == ADMIN_NAME then 0 else 1) + NonAdminCount(users[1..])
  }

  /** The airdrop credits `amount` once per non-administrative account. */
  lemma {:induction false} AirdropTotal(users: seq<User>, amount: int)
    ensures TotalPoints(Airdrop(users, amount)) == TotalPoints(users) + amount * NonAdminCount(users)
  {
    if users != [] {
      var r := Airdrop(users, amount);
      assert r[1..] == Airdrop(users[1..], amount);
      AirdropTotal(users[1..], amount);
      var n := NonAdminCount(users[1..]);
      assert amount * (n + 1) == amount * n + amount;
    }
  }

  /** The logged aggregate exceeds what was credited by `amount` for every
      administrative account in the list. */
  lemma AirdropLogCountsAdmin(users: seq<User>, amount: int)
    ensures AirdropLogAmount(users, amount) - (TotalPoints(Airdrop(users, amount)) - TotalPoints(users))
            == amount * (|users| - NonAdminCount(users))
  {
    AirdropTotal(users, amount);
    assert amount * |users| - amount * NonAdminCount(users) == amount * (|users| - NonAdminCount(users));
  }

  /** Three players and the administrator, 50 points each: 150 is credited
      while the log records 200. */
  lemma AirdropScenario(a: User, p1: User, p2: User, p3: User)
    requires a.username == ADMIN_NAME
    requires p1.username != ADMIN_NAME && p2.username != ADMIN_NAME && p3.username != ADMIN_NAME
    ensures var users := [a, p1, p2, p3];
      TotalPoints(Airdrop(users, 50)) - TotalPoints(users) == 150 && AirdropLogAmount(users, 50) == 200
  {
    var users := [a, p1, p2, p3];
    AirdropTotal(users, 50);
    assert users[1..] == [p1, p2, p3];
    assert [p1, p2, p3][1..] == [p2, p3];
    assert [p2, p3][1..] == [p3];
    assert NonAdminCount([p3]) == 1;
    assert NonAdminCount([p2, p3]) == 2;
    assert NonAdminCount([p1, p2, p3]) == 3;
  }

  method HandleGlobalAirdrop(ledger: Ledger, amount: int, confirmed: bool, now: int)
    modifies ledger`users, ledger`transactions
    ensures !confirmed ==> ledger.users == old(ledger.users) && ledger.transactions == old(ledger.transactions)
    ensures confirmed ==> ledger.users == Airdrop(old(ledger.users), amount)
    ensures confirmed ==>
              ledger.transactions ==
                [Tx(0, "SYSTEM", AIRDROP, AirdropLogAmount(old(ledger.users), amount), now)] + old(ledger.transactions)
  {
    if confirmed {
      var before := ledger.users;
      ledger.users := Airdrop(before, amount);
      ledger.AddTransaction(0, "SYSTEM", AIRDROP, AirdropLogAmount(before, amount), now);
    }
  }

  // ----- Giveaway maintenance -----

  predicate HasGiveaway(giveaways: seq<Giveaway>, id: int)
  {
    exists i :: 0 <= i < |giveaways| && giveaways[i].id == id
  }

  /** The giveaway counterpart of `UpdateUser`: every giveaway with the saved
      giveaway's id is replaced by it, in place. */
  function ReplaceGiveaway(giveaways: seq<Giveaway>, g: Giveaway): (r: seq<Giveaway>)
    ensures |r| == |giveaways|
    ensures forall i :: 0 <= i < |giveaways| ==>
              r[i] == (if giveaways[i].id == g.id then g else giveaways[i])
  {
    if giveaways == [] then []
    else [if giveaways[0].id == g.id then g else giveaways[0]] + ReplaceGiveaway(giveaways[1..], g)
  }

  /** Saving replaces the giveaway with the same id in place, or appends it. */
  function SaveGiveaway(giveaways: seq<Giveaway>, g: Giveaway): (r: seq<Giveaway>)
    ensures g in r
    ensures HasGiveaway(giveaways, g.id) ==> r == ReplaceGiveaway(giveaways, g)
    ensures !HasGiveaway(giveaways, g.id) ==> r == giveaways + [g]
  {
    if HasGiveaway(giveaways, g.id) then
      var i :| 0 <= i < |giveaways| && giveaways[i].id == g.id;
      var r := ReplaceGiveaway(giveaways, g);
      assert r[i] == g;
      r
    else giveaways + [g]
  }

  /** Saving the same giveaway again changes nothing. */
  lemma SaveGiveawayIdempotent(giveaways: seq<Giveaway>, g: Giveaway)
    ensures SaveGiveaway(SaveGiveaway(giveaways, g), g) == SaveGiveaway(giveaways, g)
  {
    var r := SaveGiveaway(giveaways, g);
    assert HasGiveaway(r, g.id) by {
      var i :| 0 <= i < |r| && r[i] == g;
    }
    var r2 := ReplaceGiveaway(r, g);
    assert r2 == r;
  }

  /** The list without the giveaways that carry `id`, the rest in order. */
  function DeleteGiveaway(giveaways: seq<Giveaway>, id: int): (r: seq<Giveaway>)
    ensures |r| <= |giveaways|
    ensures forall g :: g in r <==> g in giveaways && g.id != id
  {
    if giveaways == [] then []
    else (if giveaways[0].id == id then [] else [giveaways[0]]) + DeleteGiveaway(giveaways[1..], id)
  }

  /** Deletion works giveaway by giveaway, so the survivors keep their order. */
  lemma {:induction false} DeleteGiveawayDistributes(a: seq<Giveaway>, b: seq<Giveaway>, id: int)
    ensures DeleteGiveaway(a + b, id) == DeleteGiveaway(a, id) + DeleteGiveaway(b, id)
  {
    if a == [] {
      assert a + b == b;
    } else {
      assert (a + b)[1..] == a[1..] + b;
      DeleteGiveawayDistributes(a[1..], b, id);
    }
  }

  /** On one giveaway, deletion drops it exactly when it carries the id. */
  lemma DeleteOneGiveaway(g: Giveaway, id: int)
    ensures DeleteGiveaway([g], id) == if g.id == id then [] else [g]
  {
    assert [g][1..] == [];
  }

  /** Deleting an id no giveaway has changes nothing. */
  lemma {:induction false} DeleteAbsentGiveaway(giveaways: seq<Giveaway>, id: int)
    requires !HasGiveaway(giveaways, id)
    ensures DeleteGiveaway(giveaways, id) == giveaways
  {
    if giveaways != [] {
      assert giveaways[0].id != id;
      assert !HasGiveaway(giveaways[1..], id) by {
        forall i | 0 <= i < |giveaways[1..]| ensures giveaways[1..][i].id != id {
          assert giveaways[1..][i] == giveaways[i + 1];
        }
      }
      DeleteAbsentGiveaway(giveaways[1..], id);
    }
  }

  method HandleSaveGiveaway(ledger: Ledger, g: Giveaway)
    modifies ledger`giveaways
    ensures ledger.giveaways == SaveGiveaway(old(ledger.giveaways), g)
  {
    ledger.giveaways := SaveGiveaway(ledger.giveaways, g);
  }

  method HandleDeleteGiveaway(ledger: Ledger, id: int, confirmed: bool)
    modifies ledger`giveaways
    ensures ledger.giveaways == if confirmed then DeleteGiveaway(old(ledger.giveaways), id) else old(ledger.giveaways)
  {
    if confirmed {
      ledger.giveaways := DeleteGiveaway(ledger.giveaways, id);
    }
  }

  // ----- Search -----

  /** ASCII lower-casing of one character. */
  function LowerChar(c: char): char
  {
    if 'A' <= c <= 'Z' then (c as int + 32) as char else c
  }

  function ToLower(s: string): (r: string)
    ensures |r| == |s|
    ensures forall i :: 0 <= i < |s| ==> r[i] == LowerChar(s[i])
  {
    seq(|s|, i requires 0 <= i < |s| => LowerChar(s[i]))
  }

  predicate OccursAt(s: string, t: string, i: int)
  {
    0 <= i && i + |t| <= |s| && s[i..i + |t|] == t
  }

  /** `s` contains `t` as a contiguous piece. */
  predicate Contains(s: string, t: string)
  {
    exists i | 0 <= i <= |s| :: OccursAt(s, t, i)
  }

  /** The search keeps an account whose lower-cased name, or lower-cased
      wallet when there is one, contains the lower-cased term. */
  predicate Matches(u: User, term: string)
  {
    Contains(ToLower(u.username), ToLower(term)) ||
    (u.wallet.Some? && Contains(ToLower(u.wallet.value), ToLower(term)))
  }

  function SearchUsers(users: seq<User>, term: string): (r: seq<User>)
    ensures |r| <= |users|
    ensures forall u :: u in r <==> u in users && Matches(u, term)
  {
    if users == [] then []
    else (if Matches(users[0], term) then [users[0]] else []) + SearchUsers(users[1..], term)
  }

  /** The search filters account by account, so the hits keep their order. */
  lemma {:induction false} SearchUsersDistributes(a: seq<User>, b: seq<User>, term: string)
    ensures SearchUsers(a + b, term) == SearchUsers(a, term) + SearchUsers(b, term)
  {
    if a == [] {
      assert a + b == b;
    } else {
      assert (a + b)[1..] == a[1..] + b;
      SearchUsersDistributes(a[1..], b, term);
    }
  }

  /** On one account, the search keeps it exactly when it matches. */
  lemma SearchOneUser(u: User, term: string)
    ensures SearchUsers([u], term) == if Matches(u, term) then [u] else []
  {
    assert [u][1..] == [];
  }

  /** An empty term keeps every account, in order. */
  lemma {:induction false} SearchEmptyTermKeepsAll(users: seq<User>)
    ensures SearchUsers(users, "") == users
  {
    if users != [] {
      assert OccursAt(ToLower(users[0].username), ToLower(""), 0);
      SearchEmptyTermKeepsAll(users[1..]);
    }
  }

  /** ASCII upper-casing of one character, the inverse direction of `LowerChar`. */
  function UpperChar(c: char): (r: char)
    ensures LowerChar(r) == LowerChar(c)
  {
    if 'a' <= c <= 'z' then (c as int - 32) as char else c
  }

  /** ASCII upper-casing, character by character. */
  function ToUpper(s: string): (r: string)
    ensures |r| == |s|
    ensures forall i :: 0 <= i < |s| ==> r[i] == UpperChar(s[i])
  {
    seq(|s|, i requires 0 <= i < |s| => UpperChar(s[i]))
  }

  /** Two terms that lower-case alike select the same accounts. */
  lemma FoldedTermsMatchAlike(u: User, t1: string, t2: string)
    requires ToLower(t1) == ToLower(t2)
    ensures Matches(u, t1) <==> Matches(u, t2)
  {
  }

  /** The search is case-insensitive in the term: lower- or upper-casing
      it never changes whether an account matches. */
  lemma SearchIgnoresTermCase(u: User, term: string)
    ensures Matches(u, term) <==> Matches(u, ToLower(term))
    ensures Matches(u, term) <==> Matches(u, ToUpper(term))
  {
    var lt := ToLower(term);
    var llt := ToLower(lt);
    forall i | 0 <= i < |term| ensures llt[i] == lt[i] {
    }
    assert llt == lt;
    var ut := ToUpper(term);
    var lut := ToLower(ut);
    forall i | 0 <= i < |term| ensures lut[i] == lt[i] {
    }
    assert lut == lt;
    FoldedTermsMatchAlike(u, term, ut);
  }
}
