/**
 * Favourites: a list of (session, user) entries under one storage key, which
 * `toggleFavorite` edits in place.
 */
module Favorites {
  import opened Wrappers
  import opened Storage
  import Sequences

  datatype FavoriteSession = FavoriteSession(sessionId: string, userId: string, favoritedAt: Timestamp)

  /** The entry is for this session and this user. */
  predicate IsPair(f: FavoriteSession, sessionId: string, userId: string) {
    f.sessionId == sessionId && f.userId == userId
  }

  function PairOf(sessionId: string, userId: string): FavoriteSession -> bool {
    (f: FavoriteSession) => IsPair(f, sessionId, userId)
  }

  function NotPairOf(sessionId: string, userId: string): FavoriteSession -> bool {
    (f: FavoriteSession) => !IsPair(f, sessionId, userId)
  }

  function OfUser(userId: string): FavoriteSession -> bool {
    (f: FavoriteSession) => f.userId == userId
  }

  /** Some entry is for this session and this user. */
  predicate HasPair(favorites: seq<FavoriteSession>, sessionId: string, userId: string) {
    exists i :: 0 <= i < |favorites| && IsPair(favorites[i], sessionId, userId)
  }

  /** No two entries are for the same session and user. */
  predicate NoDuplicatePairs(favorites: seq<FavoriteSession>) {
    forall i, j :: 0 <= i < j < |favorites| ==>
      !IsPair(favorites[j], favorites[i].sessionId, favorites[i].userId)
  }

  /**
   * The list `toggleFavorite` writes back: without the first entry for the pair
   * when there is one, otherwise with a new entry for it at the end.
   */
  function Toggled(favorites: seq<FavoriteSession>, sessionId: string, userId: string, now: Timestamp)
    : (r: seq<FavoriteSession>)
    ensures HasPair(favorites, sessionId, userId) ==>
      exists i :: 0 <= i < |favorites| && IsPair(favorites[i], sessionId, userId) &&
                  (forall j :: 0 <= j < i ==> !IsPair(favorites[j], sessionId, userId)) &&
                  r == favorites[..i] + favorites[i + 1..]
    ensures !HasPair(favorites, sessionId, userId) ==> r == favorites + [FavoriteSession(sessionId, userId, now)]
  {
    match Sequences.FirstIndex(favorites, PairOf(sessionId, userId))
    case Some(i) => favorites[..i] + favorites[i + 1..]
    case None => favorites + [FavoriteSession(sessionId, userId, now)]
  }

  /** Toggling leaves every entry for another pair in place, in the same relative order. */
  lemma ToggledKeepsOthers(favorites: seq<FavoriteSession>, sessionId: string, userId: string, now: Timestamp)
    ensures Sequences.Filter(Toggled(favorites, sessionId, userId, now), NotPairOf(sessionId, userId))
         == Sequences.Filter(favorites, NotPairOf(sessionId, userId))
  {
    var others := NotPairOf(sessionId, userId);
    match Sequences.FirstIndex(favorites, PairOf(sessionId, userId))
    case Some(i) =>
      var front, back := favorites[..i], favorites[i + 1..];
      assert Sequences.Filter(favorites, others) == Sequences.Filter(front, others) + Sequences.Filter(back, others) by {
        assert favorites == front + ([favorites[i]] + back);
        Sequences.FilterAppend(front, [favorites[i]] + back, others);
        Sequences.FilterAppend([favorites[i]], back, others);
        assert Sequences.Filter([favorites[i]], others) == [];
      }
      Sequences.FilterAppend(front, back, others);
    case None =>
      var entry := FavoriteSession(sessionId, userId, now);
      Sequences.FilterAppend(favorites, [entry], others);
      assert Sequences.Filter([entry], others) == [];
  }

  /** Removing the entry for a pair from a list without duplicates removes the pair and no other. */
  lemma RemovedMembership(favorites: seq<FavoriteSession>, i: nat, sessionId: string, userId: string)
    requires NoDuplicatePairs(favorites)
    requires i < |favorites| && IsPair(favorites[i], sessionId, userId)
    ensures var t := favorites[..i] + favorites[i + 1..];
            && !HasPair(t, sessionId, userId)
            && (forall s, u :: s != sessionId || u != userId ==> (HasPair(t, s, u) <==> HasPair(favorites, s, u)))
            && NoDuplicatePairs(t)
  {
    var t := favorites[..i] + favorites[i + 1..];
    assert forall k :: 0 <= k < |t| ==> t[k] == favorites[if k < i then k else k + 1];
    forall s, u | s != sessionId || u != userId
      ensures HasPair(t, s, u) <==> HasPair(favorites, s, u)
    {
      if HasPair(favorites, s, u) {
        var j :| 0 <= j < |favorites| && IsPair(favorites[j], s, u);
        assert j != i;
        assert IsPair(t[if j < i then j else j - 1], s, u);
      }
    }
  }

  /** Appending an entry for an absent pair to a list without duplicates adds the pair and no other. */
  lemma AppendedMembership(favorites: seq<FavoriteSession>, entry: FavoriteSession)
    requires NoDuplicatePairs(favorites)
    requires !HasPair(favorites, entry.sessionId, entry.userId)
    ensures var t := favorites + [entry];
            && HasPair(t, entry.sessionId, entry.userId)
            && (forall s, u :: s != entry.sessionId || u != entry.userId ==> (HasPair(t, s, u) <==> HasPair(favorites, s, u)))
            && NoDuplicatePairs(t)
  {
    var t := favorites + [entry];
    assert IsPair(t[|favorites|], entry.sessionId, entry.userId);
    forall s, u | s != entry.sessionId || u != entry.userId
      ensures HasPair(t, s, u) <==> HasPair(favorites, s, u)
    {
      if HasPair(t, s, u) {
        var j :| 0 <= j < |t| && IsPair(t[j], s, u);
        assert j < |favorites| && t[j] == favorites[j];
      }
      if HasPair(favorites, s, u) {
        var j :| 0 <= j < |favorites| && IsPair(favorites[j], s, u);
        assert t[j] == favorites[j];
      }
    }
  }

  /**
   * On a list without duplicate pairs, toggling flips the membership of the
   * toggled pair, keeps the membership of every other pair, and leaves no
   * duplicates.
   */
  lemma ToggledMembership(favorites: seq<FavoriteSession>, sessionId: string, userId: string, now: Timestamp)
    requires NoDuplicatePairs(favorites)
    ensures HasPair(Toggled(favorites, sessionId, userId, now), sessionId, userId) <==> !HasPair(favorites, sessionId, userId)
    ensures forall s, u :: s != sessionId || u != userId ==>
      (HasPair(Toggled(favorites, sessionId, userId, now), s, u) <==> HasPair(favorites, s, u))
    ensures NoDuplicatePairs(Toggled(favorites, sessionId, userId, now))
  {
    match Sequences.FirstIndex(favorites, PairOf(sessionId, userId))
    case Some(i) =>
      assert PairOf(sessionId, userId)(favorites[i]);
      RemovedMembership(favorites, i, sessionId, userId);
    case None =>
      AppendedMembership(favorites, FavoriteSession(sessionId, userId, now));
  }

  /**
   * On a list without duplicate pairs, toggling the same pair twice restores
   * the membership of every pair; when the pair was absent it restores the list
   * itself.
   */
  lemma ToggleTwice(favorites: seq<FavoriteSession>, sessionId: string, userId: string, t1: Timestamp, t2: Timestamp)
    requires NoDuplicatePairs(favorites)
    ensures forall s, u ::
      HasPair(Toggled(Toggled(favorites, sessionId, userId, t1), sessionId, userId, t2), s, u) <==> HasPair(favorites, s, u)
    ensures !HasPair(favorites, sessionId, userId) ==>
      Toggled(Toggled(favorites, sessionId, userId, t1), sessionId, userId, t2) == favorites
  {
    var once := Toggled(favorites, sessionId, userId, t1);
    ToggledMembership(favorites, sessionId, userId, t1);
    ToggledMembership(once, sessionId, userId, t2);
    if !HasPair(favorites, sessionId, userId) {
      var entry := FavoriteSession(sessionId, userId, t1);
      assert Sequences.FirstIndex(favorites, PairOf(sessionId, userId)).None?;
      assert once == favorites + [entry];
      assert PairOf(sessionId, userId)(once[|favorites|]);
      var k := Sequences.FirstIndex(once, PairOf(sessionId, userId));
      assert k == Some(|favorites|) by {
        assert forall j :: 0 <= j < |favorites| ==> once[j] == favorites[j];
      }
      assert once[..|favorites|] == favorites;
    }
  }

  class FavoritesStore {
    /** The `wellness_favorites` key. */
    var slot: Slot<FavoriteSession>

    constructor (initial: Slot<FavoriteSession>)
      ensures slot == initial
    {
      slot := initial;
    }

    /** The session ids the user has favourited, one per entry, in stored order. */
    function GetFavoritesByUser(userId: string): (r: seq<string>)
      reads this
      ensures !slot.Stored? ==> r == []
      ensures |r| == |Sequences.Filter(slot.Contents(), OfUser(userId))|
      ensures forall i :: 0 <= i < |r| ==> r[i] == Sequences.Filter(slot.Contents(), OfUser(userId))[i].sessionId
      ensures forall s :: s in r <==> HasPair(slot.Contents(), s, userId)
    {
      var mine := Sequences.Filter(slot.Contents(), OfUser(userId));
      var r := Sequences.Map(mine, (f: FavoriteSession) => f.sessionId);
      assert forall s :: s in r <==> HasPair(slot.Contents(), s, userId) by {
        forall s
          ensures s in r <==> HasPair(slot.Contents(), s, userId)
        {
          if s in r {
            var k :| 0 <= k < |r| && r[k] == s;
            assert mine[k] in slot.Contents();
          }
          if HasPair(slot.Contents(), s, userId) {
            var j :| 0 <= j < |slot.Contents()| && IsPair(slot.Contents()[j], s, userId);
            var f := slot.Contents()[j];
            assert f in mine;
            var k :| 0 <= k < |mine| && mine[k] == f;
            assert r[k] == s;
          }
        }
      }
      r
    }

    /**
     * Removes the first entry for the pair and answers false, or appends one and
     * answers true; a store that does not parse answers false and is not written.
     */
    method ToggleFavorite(sessionId: string, userId: string, now: Timestamp) returns (added: bool)
      modifies this
      ensures old(slot).Unparseable? ==> !added && slot == old(slot)
      ensures !old(slot).Unparseable? ==>
        && added == !HasPair(old(slot).Contents(), sessionId, userId)
        && slot == Stored(Toggled(old(slot).Contents(), sessionId, userId, now))
      ensures !old(slot).Unparseable? && NoDuplicatePairs(old(slot).Contents()) ==>
        && IsFavorited(sessionId, userId) == added
        && NoDuplicatePairs(slot.Contents())
    {
      if slot.Unparseable? {
        return false;
      }
      var favorites := slot.Contents();
      ghost var before := favorites;
      var existingIndex := Sequences.FirstIndex(favorites, PairOf(sessionId, userId));
      if existingIndex.Some? {
        var i := existingIndex.value;
        favorites := favorites[..i] + favorites[i + 1..];
        slot := Stored(favorites);
        added := false;
      } else {
        favorites := favorites + [FavoriteSession(sessionId, userId, now)];
        slot := Stored(favorites);
        added := true;
      }
      if NoDuplicatePairs(before) {
        ToggledMembership(before, sessionId, userId, now);
      }
    }

    /** Whether the user's favourites include the session. */
    function IsFavorited(sessionId: string, userId: string): (r: bool)
      reads this
      ensures r <==> HasPair(slot.Contents(), sessionId, userId)
    {
      sessionId in GetFavoritesByUser(userId)
    }
  }
}
