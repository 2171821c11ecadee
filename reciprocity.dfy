/**
  What `main` computes from the two fetched lists, stated as functions on
  lists: who to follow back, who does not follow back, and which of those
  are unfollowed once the exempt accounts are skipped.
*/
module Reciprocity {
  import opened StringOrder

  /** The bot account that is never followed back. */
  const Bot: string := "sphinxzerd"

  /** The accounts that are never unfollowed. */
  const Exempt: seq<string> := ["BenjaminX", "academind", "angelabauer", "mschwarzmueller"]

  function Elems(s: seq<string>): set<string>
  {
    set x | x in s
  }

  /**
    The entries of `xs` that are not in `drop`, in their order and with their
    multiplicity.
  */
  function Without(xs: seq<string>, drop: set<string>): (r: seq<string>)
    ensures |r| <= |xs|
  {
    if xs == [] then []
    else (if xs[0] in drop then [] else [xs[0]]) + Without(xs[1..], drop)
  }

  /** Each entry not dropped keeps its multiplicity. */
  lemma {:induction false} WithoutCount(xs: seq<string>, drop: set<string>, x: string)
    ensures multiset(Without(xs, drop))[x] == if x in drop then 0 else multiset(xs)[x]
    decreases |xs|
  {
    if xs != [] {
      WithoutCount(xs[1..], drop, x);
      assert xs == [xs[0]] + xs[1..];
    }
  }

  lemma WithoutMembers(xs: seq<string>, drop: set<string>, x: string)
    ensures x in Without(xs, drop) <==> x in xs && x !in drop
  {
    WithoutCount(xs, drop, x);
    assert x in Without(xs, drop) <==> x in multiset(Without(xs, drop));
  }

  lemma {:induction false} WithoutAppend(a: seq<string>, b: seq<string>, drop: set<string>)
    ensures Without(a + b, drop) == Without(a, drop) + Without(b, drop)
    decreases |a|
  {
    if a == [] {
      assert a + b == b;
    } else {
      var h := if a[0] in drop then [] else [a[0]];
      assert (a + b)[0] == a[0] && (a + b)[1..] == a[1..] + b;
      assert Without(a + b, drop) == h + Without(a[1..] + b, drop);
      WithoutAppend(a[1..], b, drop);
      assert Without(a, drop) == h + Without(a[1..], drop);
    }
  }

  /** Filtering by `d` and then by `e` is filtering by both at once. */
  lemma {:induction false} WithoutWithout(xs: seq<string>, d: set<string>, e: set<string>)
    ensures Without(Without(xs, d), e) == Without(xs, d + e)
    decreases |xs|
  {
    if xs != [] {
      WithoutWithout(xs[1..], d, e);
      var rest := Without(xs[1..], d);
      if xs[0] in d {
        assert Without(xs, d) == rest;
      } else {
        var r := Without(xs, d);
        assert r == [xs[0]] + rest;
        assert r[0] == xs[0] && r[1..] == rest;
        assert Without(r, e) == (if xs[0] in e then [] else [xs[0]]) + Without(rest, e);
      }
    }
  }

  lemma {:induction false} WithoutNothing(xs: seq<string>)
    ensures Without(xs, {}) == xs
    decreases |xs|
  {
    if xs != [] {
      WithoutNothing(xs[1..]);
      assert xs == [xs[0]] + xs[1..];
    }
  }

  /** `r` is `xs` with some entries deleted, the others kept in order. */
  predicate IsSubsequence(r: seq<string>, xs: seq<string>)
    decreases |xs|
  {
    if r == [] then true
    else if xs == [] then false
    else (r[0] == xs[0] && IsSubsequence(r[1..], xs[1..])) || IsSubsequence(r, xs[1..])
  }

  lemma {:induction false} WithoutIsSubsequence(xs: seq<string>, drop: set<string>)
    ensures IsSubsequence(Without(xs, drop), xs)
    decreases |xs|
  {
    if xs != [] {
      WithoutIsSubsequence(xs[1..], drop);
      var rest := Without(xs[1..], drop);
      var r := Without(xs, drop);
      if xs[0] in drop {
        assert r == rest;
      } else {
        assert r == [xs[0]] + rest;
        assert r[0] == xs[0] && r[1..] == rest;
      }
    }
  }

  lemma {:induction false} SubsequenceElements(r: seq<string>, xs: seq<string>)
    requires IsSubsequence(r, xs)
    ensures |r| <= |xs|
    ensures forall x :: x in r ==> x in xs
    decreases |xs|
  {
    if r != [] {
      if r[0] == xs[0] && IsSubsequence(r[1..], xs[1..]) {
        SubsequenceElements(r[1..], xs[1..]);
        assert forall x :: x in r ==> x == r[0] || x in r[1..];
      } else {
        SubsequenceElements(r, xs[1..]);
      }
    }
  }

  /** Deleting entries from an ascending list leaves it ascending. */
  lemma {:induction false} SubsequenceSorted(r: seq<string>, xs: seq<string>)
    requires IsSubsequence(r, xs) && Sorted(xs)
    ensures Sorted(r)
    decreases |xs|
  {
    if r != [] {
      assert Sorted(xs[1..]);
      if r[0] == xs[0] && IsSubsequence(r[1..], xs[1..]) {
        SubsequenceSorted(r[1..], xs[1..]);
        SubsequenceElements(r[1..], xs[1..]);
        forall y | y in r[1..] ensures Le(r[0], y) {
          var j :| 1 <= j < |xs| && xs[j] == y;
        }
        SortedCons(r[0], r[1..]);
        assert r == [r[0]] + r[1..];
      } else {
        SubsequenceSorted(r, xs[1..]);
      }
    }
  }

  /** The followers not followed back yet, leaving out the bot (lines 136-149). */
  function FollowBackList(followers: seq<string>, following: seq<string>): (r: seq<string>)
    ensures |r| <= |followers|
  {
    Without(followers, Elems(following) + {Bot})
  }

  /** The followed accounts that do not follow back (lines 160-174). */
  function UnfollowList(followers: seq<string>, following: seq<string>): (r: seq<string>)
    ensures |r| <= |following|
  {
    Without(following, Elems(followers))
  }

  /** The entries of the unfollow list that are actually unfollowed (lines 176-187). */
  function UnfollowTargets(unfollow: seq<string>): (r: seq<string>)
    ensures |r| <= |unfollow|
  {
    Without(unfollow, Elems(Exempt))
  }

  /**
    A follower is followed back exactly when it is not followed yet and is not
    the bot, as often as it occurs among the followers.
  */
  lemma FollowBackMembers(followers: seq<string>, following: seq<string>, x: string)
    ensures x in FollowBackList(followers, following) <==> x in followers && x !in following && x != Bot
    ensures multiset(FollowBackList(followers, following))[x]
         == if x in following || x == Bot then 0 else multiset(followers)[x]
  {
    WithoutCount(followers, Elems(following) + {Bot}, x);
  }

  lemma BotNeverFollowedBack(followers: seq<string>, following: seq<string>)
    ensures Bot !in FollowBackList(followers, following)
  {
    FollowBackMembers(followers, following, Bot);
  }

  /**
    The follow-back list keeps the followers' order: it is a subsequence of
    the followers, so no longer than they are, and ascending when they are.
  */
  lemma FollowBackOrdered(followers: seq<string>, following: seq<string>)
    ensures IsSubsequence(FollowBackList(followers, following), followers)
    ensures |FollowBackList(followers, following)| <= |followers|
    ensures Sorted(followers) ==> Sorted(FollowBackList(followers, following))
  {
    var drop := Elems(following) + {Bot};
    WithoutIsSubsequence(followers, drop);
    if Sorted(followers) {
      SubsequenceSorted(Without(followers, drop), followers);
    }
  }

  lemma UnfollowMembers(followers: seq<string>, following: seq<string>, x: string)
    ensures x in UnfollowList(followers, following) <==> x in following && x !in followers
    ensures multiset(UnfollowList(followers, following))[x]
         == if x in followers then 0 else multiset(following)[x]
  {
    WithoutCount(following, Elems(followers), x);
  }

  lemma UnfollowOrdered(followers: seq<string>, following: seq<string>)
    ensures IsSubsequence(UnfollowList(followers, following), following)
    ensures |UnfollowList(followers, following)| <= |following|
    ensures Sorted(following) ==> Sorted(UnfollowList(followers, following))
  {
    var drop := Elems(followers);
    WithoutIsSubsequence(following, drop);
    if Sorted(following) {
      SubsequenceSorted(Without(following, drop), following);
    }
  }

  /** With no followers every followed account is unfollowed; with none followed, none. */
  lemma UnfollowEdgeCases(followers: seq<string>, following: seq<string>)
    ensures followers == [] ==> UnfollowList(followers, following) == following
    ensures following == [] ==> UnfollowList(followers, following) == []
  {
    if followers == [] {
      assert Elems(followers) == {};
      WithoutNothing(following);
    }
  }

  lemma FollowBackAndUnfollowDisjoint(followers: seq<string>, following: seq<string>, x: string)
    ensures !(x in FollowBackList(followers, following) && x in UnfollowList(followers, following))
  {
    FollowBackMembers(followers, following, x);
    UnfollowMembers(followers, following, x);
  }

  /**
    An entry of the unfollow list is unfollowed exactly when it is not exempt;
    the exempt entries are skipped and the others keep their order.
  */
  lemma UnfollowTargetsMembers(unfollow: seq<string>, x: string)
    ensures x in UnfollowTargets(unfollow) <==> x in unfollow && x !in Exempt
    ensures multiset(UnfollowTargets(unfollow))[x] == if x in Exempt then 0 else multiset(unfollow)[x]
    ensures IsSubsequence(UnfollowTargets(unfollow), unfollow)
  {
    WithoutCount(unfollow, Elems(Exempt), x);
    WithoutIsSubsequence(unfollow, Elems(Exempt));
  }

  /**
    As sets, the follow-back list is followers minus following minus the bot,
    and the unfollow list is following minus followers.
  */
  lemma SetAlgebra(followers: seq<string>, following: seq<string>)
    ensures Elems(FollowBackList(followers, following)) == Elems(followers) - Elems(following) - {Bot}
    ensures Elems(UnfollowList(followers, following)) == Elems(following) - Elems(followers)
  {
    forall x
      ensures x in Elems(FollowBackList(followers, following)) <==> x in Elems(followers) - Elems(following) - {Bot}
      ensures x in Elems(UnfollowList(followers, following)) <==> x in Elems(following) - Elems(followers)
    {
      FollowBackMembers(followers, following, x);
      UnfollowMembers(followers, following, x);
    }
  }

  /**
    Exempting one more account removes that account's entries and nothing
    else, and never lengthens the list of accounts unfollowed.
  */
  lemma ExemptingMore(unfollow: seq<string>, exempt: set<string>, y: string)
    ensures Without(unfollow, exempt + {y}) == Without(Without(unfollow, exempt), {y})
    ensures |Without(unfollow, exempt + {y})| <= |Without(unfollow, exempt)|
  {
    WithoutWithout(unfollow, exempt, {y});
  }
}
