/** The older per-user flag store (service/UserStateService.java): a table from
    user id to "waiting for a book title", read with false as the default. */
module LegacyFlags {
  import opened JavaLang

  type UserId = Long
  type Flags = map<UserId, bool>

  /** isWaitingForBookTitle on a table: getOrDefault(userId, false). */
  function Flag(m: Flags, u: UserId): (b: bool)
    ensures u !in m ==> !b
    ensures u in m ==> b == m[u]
  {
    GetOrDefault(m, u, false)
  }

  /** A user that was set reads back the value set. */
  lemma SetThenGet(m: Flags, u: UserId, v: bool)
    ensures Flag(m[u := v], u) == v
  {
  }

  /** Setting one user leaves every other user's flag as it was. */
  lemma SetLeavesOthers(m: Flags, u: UserId, v: bool, w: UserId)
    requires w != u
    ensures Flag(m[u := v], w) == Flag(m, w)
  {
  }

  /** Of two writes to the same user only the last counts, so repeating a write
      changes nothing. */
  lemma LastWriteWins(m: Flags, u: UserId, first: bool, second: bool)
    ensures m[u := first][u := second] == m[u := second]
    ensures m[u := second][u := second] == m[u := second]
  {
  }

  class UserStateService {
    var waitingForBookTitle: Flags

    /** A new store knows no user, so every user reads false. */
    constructor ()
      ensures waitingForBookTitle == map[]
      ensures forall u :: !Flag(waitingForBookTitle, u)
    {
      waitingForBookTitle := map[];
    }

    /** setWaitingForBookTitle: HashMap.put. */
    method SetWaitingForBookTitle(u: UserId, isWaiting: bool)
      modifies this
      ensures waitingForBookTitle == old(waitingForBookTitle)[u := isWaiting]
      ensures Flag(waitingForBookTitle, u) == isWaiting
    {
      waitingForBookTitle := waitingForBookTitle[u := isWaiting];
    }

    method IsWaitingForBookTitle(u: UserId) returns (b: bool)
      ensures b == Flag(waitingForBookTitle, u)
    {
      if u in waitingForBookTitle {
        b := waitingForBookTitle[u];
      } else {
        b := false;
      }
    }
  }
}
