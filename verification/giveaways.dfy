/** Giveaway entry: an account may enter a giveaway up to its entry limit,
    paying its entry cost each time and giving a proof link; each entry is
    recorded and logged as a debit. */
module Giveaways {
  import opened Types
  import opened Store

  /** The number of entries `userId` holds in giveaway `giveawayId`. */
  function EntriesCount(entries: seq<GiveawayEntry>, userId: int, giveawayId: int): (n: nat)
    ensures n <= |entries|
    ensures n == 0 <==> forall k :: 0 <= k < |entries| ==> !(entries[k].userId == userId && entries[k].giveawayId == giveawayId)
  {
    if |entries| == 0 then 0
    else
      (if entries[0].userId == userId && entries[0].giveawayId == giveawayId then 1 else 0)
      + EntriesCount(entries[1..], userId, giveawayId)
  }

  /** Appending one entry adds one to its own account's count in its own
      giveaway and leaves every other count alone. */
  lemma {:induction false} CountAppend(entries: seq<GiveawayEntry>, e: GiveawayEntry, userId: int, giveawayId: int)
    ensures EntriesCount(entries + [e], userId, giveawayId) ==
            EntriesCount(entries, userId, giveawayId) + (if e.userId == userId && e.giveawayId == giveawayId then 1 else 0)
  {
    if |entries| > 0 {
      assert (entries + [e])[1..] == entries[1..] + [e];
      CountAppend(entries[1..], e, userId, giveawayId);
    }
  }

  /** The count the panel shows for a giveaway: none when signed out. */
  function UserEntriesCount(entries: seq<GiveawayEntry>, user: Option<User>, giveawayId: int): (n: nat)
    ensures user.None? ==> n == 0
    ensures user.Some? ==> n == EntriesCount(entries, user.value.id, giveawayId)
  {
    if user.None? then 0 else EntriesCount(entries, user.value.id, giveawayId)
  }

  /** A proof link is required: a cancelled prompt or an empty answer stops the entry. */
  predicate HasProof(proof: Option<string>)
  {
    proof.Some? && proof.value != ""
  }

  /** Whether the entry goes through: signed in, below the limit, the
      balance covers the cost, the account is in the list and a proof link
      was given. */
  predicate Enters(users: seq<User>, entries: seq<GiveawayEntry>, user: Option<User>, g: Giveaway, proof: Option<string>)
  {
    user.Some? && UserEntriesCount(entries, user, g.id) < g.maxEntries && user.value.points >= g.entryCost &&
    IndexOf(users, user.value.id) >= 0 && HasProof(proof)
  }

  /** `proof` is the answer to the proof-link prompt (none when cancelled). */
  method HandleEnter(ledger: Ledger, user: Option<User>, g: Giveaway, proof: Option<string>, now: int)
    requires Current(ledger.users, user)
    modifies ledger`users, ledger`entries, ledger`transactions
    ensures !Enters(old(ledger.users), old(ledger.entries), user, g, proof) ==>
              ledger.users == old(ledger.users) && ledger.entries == old(ledger.entries) &&
              ledger.transactions == old(ledger.transactions)
    ensures Enters(old(ledger.users), old(ledger.entries), user, g, proof) ==>
              var i := IndexOf(old(ledger.users), user.value.id);
              ledger.users == old(ledger.users)[i := old(ledger.users)[i].(points := old(ledger.users)[i].points - g.entryCost)] &&
              ledger.users[i].points >= 0 &&
              ledger.entries == old(ledger.entries) + [GiveawayEntry(now, user.value.id, g.id, proof, now)] &&
              EntriesCount(ledger.entries, user.value.id, g.id) == EntriesCount(old(ledger.entries), user.value.id, g.id) + 1 &&
              EntriesCount(ledger.entries, user.value.id, g.id) <= g.maxEntries &&
              ledger.transactions == [Tx(user.value.id, user.value.username, GIVEAWAY_ENTRY, -g.entryCost, now)] + old(ledger.transactions)
    ensures PointsNonNegative(old(ledger.users)) ==> PointsNonNegative(ledger.users)
  {
    if user.None? {
      return;
    }
    var u := user.value;
    var currentEntries := UserEntriesCount(ledger.entries, user, g.id);
    if currentEntries >= g.maxEntries {
      return;
    }
    if u.points < g.entryCost {
      return;
    }
    var userIndex := IndexOf(ledger.users, u.id);
    if userIndex != -1 {
      if !HasProof(proof) {
        return;
      }
      var rec := ledger.users[userIndex];
      ledger.users := ledger.users[userIndex := rec.(points := rec.points - g.entryCost)];
      var entry := GiveawayEntry(now, u.id, g.id, proof, now);
      CountAppend(ledger.entries, entry, u.id, g.id);
      ledger.entries := ledger.entries + [entry];
      ledger.AddTransaction(u.id, u.username, GIVEAWAY_ENTRY, -g.entryCost, now);
    }
  }
}
