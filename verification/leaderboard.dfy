/** The competition leaderboard (`_annotate_profiles_with_returns`): each
    profile's return in percent is written onto it, the profiles are sorted
    by it, highest first and stably, ranks 1..n are written in that order,
    and the current profile's 0-based position is reported. */
module Leaderboard {
  import opened Wrappers
  import Sorting

  /** A profile as the leaderboard sees it. Two profiles are the same row when
      their primary keys agree, which is how model instances compare. */
  class Profile {
    const pk: int
    /** The profile's most recent cumulative return, as a fraction: the value
        `Returns.GetMostRecentReturn` computes from its ledger, taken here as
        an input. */
    const latestReturn: real
    /** The `returns` attribute the leaderboard sets (in percent); `returns`
        is a Dafny keyword, hence the field's name. */
    var percentReturn: real
    var rank: int

    constructor (pk: int, latestReturn: real)
      ensures this.pk == pk && this.latestReturn == latestReturn
    {
      this.pk := pk;
      this.latestReturn := latestReturn;
    }
  }

  /** The sort key: the most recent return times 100. */
  function ReturnsKey(p: Profile): real
  {
    p.latestReturn * 100.0
  }

  /** The 0-based index of the last profile in `s` with primary key `pk`. */
  function LastWithPk(s: seq<Profile>, pk: int): Option<nat>
  {
    if s == [] then None
    else if s[|s| - 1].pk == pk then Some(|s| - 1)
    else LastWithPk(s[..|s| - 1], pk)
  }

  /** `LastWithPk` finds the last profile with that key, and reports none
      exactly when no profile has it. */
  lemma {:induction false} LastWithPkIsLast(s: seq<Profile>, pk: int)
    ensures LastWithPk(s, pk).None? <==> forall i :: 0 <= i < |s| ==> s[i].pk != pk
    ensures LastWithPk(s, pk).Some? ==>
      && LastWithPk(s, pk).value < |s|
      && s[LastWithPk(s, pk).value].pk == pk
      && forall i :: LastWithPk(s, pk).value < i < |s| ==> s[i].pk != pk
  {
    if s != [] && s[|s| - 1].pk != pk {
      LastWithPkIsLast(s[..|s| - 1], pk);
    }
  }

  /** The `setattr` comprehension: every profile's `returns` becomes its most
      recent return times 100; ranks are left alone. */
  method SetReturns(profiles: seq<Profile>)
    requires forall i, j :: 0 <= i < j < |profiles| ==> profiles[i] != profiles[j]
    modifies set p | p in profiles
    ensures forall k :: 0 <= k < |profiles| ==> profiles[k].percentReturn == ReturnsKey(profiles[k])
    ensures forall p :: p in profiles ==> p.rank == old(p.rank)
  {
    var i := 0;
    while i < |profiles|
      invariant 0 <= i <= |profiles|
      invariant forall k :: 0 <= k < i ==> profiles[k].percentReturn == ReturnsKey(profiles[k])
      invariant forall p :: p in profiles ==> p.rank == old(p.rank)
    {
      profiles[i].percentReturn := profiles[i].latestReturn * 100.0;
      i := i + 1;
    }
  }

  /** `_annotate_profiles_with_returns`: sets every profile's `returns`,
      returns the profiles sorted by it (a stable sort, highest first) with
      `rank` set to 1..n in that order, and the index at which the current
      profile sits in the sorted list, if it is there. */
  method AnnotateProfiles(profiles: seq<Profile>, current: Profile) returns (ranked: seq<Profile>, currentRank: Option<nat>)
    requires forall i, j :: 0 <= i < j < |profiles| ==> profiles[i] != profiles[j]
    modifies set p | p in profiles
    ensures forall k :: 0 <= k < |profiles| ==> profiles[k].percentReturn == ReturnsKey(profiles[k])
    ensures ranked == Sorting.SortDesc(profiles, ReturnsKey)
    ensures forall i :: 0 <= i < |ranked| ==> ranked[i].rank == i + 1
    ensures currentRank == LastWithPk(ranked, current.pk)
  {
    SetReturns(profiles);
    ranked := Sorting.SortDesc(profiles, ReturnsKey);
    Sorting.SortKeepsDistinct(profiles, ReturnsKey);
    assert forall p :: p in ranked ==> p in multiset(profiles);
    currentRank := AssignRanks(ranked, current);
  }

  /** The `enumerate` loop: `rank` becomes the 1-based position in the
      sorted list, the current profile's position is remembered (the last
      one, should it appear twice), and `returns` is left alone. */
  method AssignRanks(ranked: seq<Profile>, current: Profile) returns (currentRank: Option<nat>)
    requires forall a, b :: 0 <= a < b < |ranked| ==> ranked[a] != ranked[b]
    modifies set p | p in ranked
    ensures forall i :: 0 <= i < |ranked| ==> ranked[i].rank == i + 1
    ensures forall p :: p in ranked ==> p.percentReturn == old(p.percentReturn)
    ensures currentRank == LastWithPk(ranked, current.pk)
  {
    currentRank := None;
    var j := 0;
    while j < |ranked|
      invariant 0 <= j <= |ranked|
      invariant forall p :: p in ranked ==> p.percentReturn == old(p.percentReturn)
      invariant forall k :: 0 <= k < j ==> ranked[k].rank == k + 1
      invariant currentRank == LastWithPk(ranked[..j], current.pk)
    {
      ranked[j].rank := j + 1;
      if current.pk == ranked[j].pk {
        currentRank := Some(j);
      }
      assert ranked[..j + 1][..j] == ranked[..j];
      j := j + 1;
    }
    assert ranked[..j] == ranked;
  }

  /** The ranked list is a permutation of the input, ordered by
      non-increasing return, and profiles with equal returns keep their input
      order. */
  lemma RankingIsStableSort(profiles: seq<Profile>, v: real)
    ensures multiset(Sorting.SortDesc(profiles, ReturnsKey)) == multiset(profiles)
    ensures Sorting.SortedDesc(Sorting.SortDesc(profiles, ReturnsKey), ReturnsKey)
    ensures Sorting.WithKey(Sorting.SortDesc(profiles, ReturnsKey), ReturnsKey, v) == Sorting.WithKey(profiles, ReturnsKey, v)
  {
    Sorting.SortIsStable(profiles, ReturnsKey, v);
  }
}
