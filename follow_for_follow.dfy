/**
  The run of `main`: load the token, sort the two fetched lists, follow back
  every follower not followed yet, then unfollow every followed account that
  does not follow back, skipping the exempt ones. The calls to `follow_user`
  and `unfollow_user` are recorded as a list of actions, in the order they are
  made.
*/
module FollowForFollow {
  import opened Wrappers
  import opened StringOrder
  import opened Credentials
  import opened Reciprocity

  /** One call on the remote service: `follow_user` or `unfollow_user`. */
  datatype Action = Follow(user: string) | Unfollow(user: string)

  function Follows(users: seq<string>): seq<Action>
  {
    seq(|users|, i requires 0 <= i < |users| => Follow(users[i]))
  }

  function Unfollows(users: seq<string>): seq<Action>
  {
    seq(|users|, i requires 0 <= i < |users| => Unfollow(users[i]))
  }

  /**
    The calls a run makes on the fetched lists, once the token is loaded:
    both lists are sorted first (lines 132-133).
  */
  function Plan(fetchedFollowers: seq<string>, fetchedFollowing: seq<string>): (r: seq<Action>)
    ensures |r| <= |fetchedFollowers| + |fetchedFollowing|
  {
    SortSameElements(fetchedFollowers, "");
    SortSameElements(fetchedFollowing, "");
    var followers, following := Sort(fetchedFollowers), Sort(fetchedFollowing);
    Follows(FollowBackList(followers, following))
      + Unfollows(UnfollowTargets(UnfollowList(followers, following)))
  }

  /**
    Linear search with a found flag and an early exit, as the inner loops of
    the two diffs do it and as `slices.Contains` does for the exempt list.
  */
  method Contains(list: seq<string>, name: string) returns (found: bool)
    ensures found <==> name in list
  {
    found := false;
    for j := 0 to |list|
      invariant !found && name !in list[..j]
    {
      if !found && name == list[j] {
        found := true;
        break;
      }
    }
    assert found || list[..|list|] == list;
  }

  lemma WithoutOne(user: string, drop: set<string>)
    ensures Without([user], drop) == if user in drop then [] else [user]
  {
    assert [user][1..] == [];
  }

  /** The follow-back diff: the followers not followed, without the bot. */
  method ComputeFollowBack(followers: seq<string>, following: seq<string>) returns (followBack: seq<string>)
    ensures followBack == FollowBackList(followers, following)
  {
    ghost var drop := Elems(following) + {Bot};
    followBack := [];
    for i := 0 to |followers|
      invariant followBack == Without(followers[..i], drop)
    {
      var userThatFollowsMe := followers[i];
      var iFollowThisUser := Contains(following, userThatFollowsMe);
      assert followers[..i + 1] == followers[..i] + [userThatFollowsMe];
      WithoutAppend(followers[..i], [userThatFollowsMe], drop);
      WithoutOne(userThatFollowsMe, drop);
      if !iFollowThisUser && userThatFollowsMe != Bot {
        followBack := followBack + [userThatFollowsMe];
      }
    }
    assert followers[..|followers|] == followers;
  }

  /** The unfollow diff: the followed accounts that are not followers. */
  method ComputeUnfollow(followers: seq<string>, following: seq<string>) returns (unfollow: seq<string>)
    ensures unfollow == UnfollowList(followers, following)
  {
    ghost var drop := Elems(followers);
    unfollow := [];
    for i := 0 to |following|
      invariant unfollow == Without(following[..i], drop)
    {
      var userThatIFollow := following[i];
      var userFollowsMe := Contains(followers, userThatIFollow);
      assert following[..i + 1] == following[..i] + [userThatIFollow];
      WithoutAppend(following[..i], [userThatIFollow], drop);
      WithoutOne(userThatIFollow, drop);
      if !userFollowsMe {
        unfollow := unfollow + [userThatIFollow];
      }
    }
    assert following[..|following|] == following;
  }

  /** The follow-back loop: one `follow_user` call per entry, in order. */
  method FollowAll(followBack: seq<string>) returns (actions: seq<Action>)
    ensures actions == Follows(followBack)
  {
    actions := [];
    for i := 0 to |followBack|
      invariant actions == Follows(followBack[..i])
    {
      actions := actions + [Follow(followBack[i])];
    }
    assert followBack[..|followBack|] == followBack;
  }

  /**
    The unfollow loop: exempt entries are skipped and the loop goes on with
    the next entry; every other entry gets one `unfollow_user` call.
  */
  method UnfollowAll(unfollow: seq<string>) returns (actions: seq<Action>)
    ensures actions == Unfollows(UnfollowTargets(unfollow))
  {
    ghost var drop := Elems(Exempt);
    actions := [];
    for i := 0 to |unfollow|
      invariant actions == Unfollows(Without(unfollow[..i], drop))
    {
      var user := unfollow[i];
      assert unfollow[..i + 1] == unfollow[..i] + [user];
      WithoutAppend(unfollow[..i], [user], drop);
      WithoutOne(user, drop);
      var exempted := Contains(Exempt, user);
      if exempted {
        assert Without(unfollow[..i + 1], drop) == Without(unfollow[..i], drop) + [];
        continue;
      }
      actions := actions + [Unfollow(user)];
    }
    assert unfollow[..|unfollow|] == unfollow;
  }

  /**
    Lines 132-187 of `main` on the two fetched lists: sort both, compute the
    follow-back list and follow each entry, then compute the unfollow list and
    unfollow each entry that is not exempt.
  */
  method Reconcile(followersArray: seq<string>, followingArray: seq<string>) returns (actions: seq<Action>)
    ensures actions == Plan(followersArray, followingArray)
  {
    var followers := Sort(followersArray);
    var following := Sort(followingArray);
    var followBack := ComputeFollowBack(followers, following);
    var follows := FollowAll(followBack);
    var unfollow := ComputeUnfollow(followers, following);
    var unfollows := UnfollowAll(unfollow);
    actions := follows + unfollows;
  }

  /** A list request that failed: the transport failed or the request could not be built. */
  datatype FetchError = RequestFailed

  datatype RunError = TokenNotLoaded(cause: TokenError) | FetchFailed

  /** What `main` goes on with when it discards the error of a list request. */
  function OrEmpty(fetched: Result<seq<string>, FetchError>): seq<string>
  {
    match fetched
    case Success(users) => users
    case Failure(_) => []
  }

  /**
    `main` as written, with the outcome of reading the key file, the value of
    `GH_PAT` and the outcomes of the two list requests as parameters. A token
    that cannot be loaded ends the run before any call (`log.Fatal`); the
    errors of the list requests are discarded, so a failed request reads as an
    empty list.
  */
  method RunAsWritten(keyFile: Option<string>, envToken: string,
                      fetchedFollowers: Result<seq<string>, FetchError>,
                      fetchedFollowing: Result<seq<string>, FetchError>)
    returns (r: Result<seq<Action>, TokenError>)
    ensures r.Failure? <==> LoadToken(keyFile, envToken).Failure?
    ensures r.Success? ==> r.value == Plan(OrEmpty(fetchedFollowers), OrEmpty(fetchedFollowing))
  {
    var token := LoadToken(keyFile, envToken);
    if token.Failure? {
      return Failure(token.error);
    }
    var followersArray := OrEmpty(fetchedFollowers);
    var followingArray := OrEmpty(fetchedFollowing);
    var actions := Reconcile(followersArray, followingArray);
    return Success(actions);
  }

  /**
    Discarding a failed followers request turns a follower into an account
    to unfollow: "octocat" follows back, yet when the followers request fails
    the run as written unfollows it.
  */
  lemma FailedFetchUnfollowsFollower()
    ensures Plan(["octocat"], ["octocat"]) == []
    ensures Plan(OrEmpty(Failure(RequestFailed)), ["octocat"]) == [Unfollow("octocat")]
  {
    var o := "octocat";
    assert Sort([o]) == Insert(o, Sort([])) == [o];
    assert Elems([o]) == {o};
    WithoutOne(o, {o} + {Bot});
    WithoutOne(o, {o});
    assert FollowBackList([o], [o]) == [] && UnfollowList([o], [o]) == [];
    assert UnfollowTargets([]) == [];

    assert OrEmpty(Failure(RequestFailed)) == [] && Sort([]) == [];
    assert FollowBackList([], [o]) == [];
    assert Elems([]) == {};
    WithoutOne(o, {});
    assert UnfollowList([], [o]) == [o];
    assert o !in Exempt;
    WithoutOne(o, Elems(Exempt));
    assert UnfollowTargets([o]) == [o];
  }

  /**
    `main` with list-request failures treated as fatal, like a missing token:
    a run either makes no call at all or makes the calls of `Plan` on the
    lists actually fetched.
  */
  method Run(keyFile: Option<string>, envToken: string,
             fetchedFollowers: Result<seq<string>, FetchError>,
             fetchedFollowing: Result<seq<string>, FetchError>)
    returns (r: Result<seq<Action>, RunError>)
    ensures r.Failure? <==> LoadToken(keyFile, envToken).Failure? || fetchedFollowers.Failure? || fetchedFollowing.Failure?
    ensures r.Success? ==> r.value == Plan(fetchedFollowers.value, fetchedFollowing.value)
  {
    var token := LoadToken(keyFile, envToken);
    if token.Failure? {
      return Failure(TokenNotLoaded(token.error));
    }
    if fetchedFollowers.Failure? || fetchedFollowing.Failure? {
      return Failure(FetchFailed);
    }
    var actions := Reconcile(fetchedFollowers.value, fetchedFollowing.value);
    return Success(actions);
  }

  /** A follower is followed back exactly when it is not followed yet and is not the bot. */
  lemma PlanFollows(fetchedFollowers: seq<string>, fetchedFollowing: seq<string>, x: string)
    ensures Follow(x) in Plan(fetchedFollowers, fetchedFollowing)
        <==> x in fetchedFollowers && x !in fetchedFollowing && x != Bot
  {
    var followers, following := Sort(fetchedFollowers), Sort(fetchedFollowing);
    var fb := FollowBackList(followers, following);
    var un := UnfollowTargets(UnfollowList(followers, following));
    assert Plan(fetchedFollowers, fetchedFollowing) == Follows(fb) + Unfollows(un);
    assert Follow(x) in Follows(fb) <==> x in fb by {
      if x in fb {
        var i :| 0 <= i < |fb| && fb[i] == x;
        assert Follows(fb)[i] == Follow(x);
      }
    }
    assert Follow(x) !in Unfollows(un);
    FollowBackMembers(followers, following, x);
    SortSameElements(fetchedFollowers, x);
    SortSameElements(fetchedFollowing, x);
  }

  /** A followed account is unfollowed exactly when it does not follow back and is not exempt. */
  lemma PlanUnfollows(fetchedFollowers: seq<string>, fetchedFollowing: seq<string>, x: string)
    ensures Unfollow(x) in Plan(fetchedFollowers, fetchedFollowing)
        <==> x in fetchedFollowing && x !in fetchedFollowers && x !in Exempt
  {
    var followers, following := Sort(fetchedFollowers), Sort(fetchedFollowing);
    var fb := FollowBackList(followers, following);
    var un := UnfollowTargets(UnfollowList(followers, following));
    assert Plan(fetchedFollowers, fetchedFollowing) == Follows(fb) + Unfollows(un);
    assert Unfollow(x) in Unfollows(un) <==> x in un by {
      if x in un {
        var i :| 0 <= i < |un| && un[i] == x;
        assert Unfollows(un)[i] == Unfollow(x);
      }
    }
    assert Unfollow(x) !in Follows(fb);
    UnfollowTargetsMembers(UnfollowList(followers, following), x);
    UnfollowMembers(followers, following, x);
    SortSameElements(fetchedFollowers, x);
    SortSameElements(fetchedFollowing, x);
  }

  /** No account is both followed and unfollowed in one run. */
  lemma PlanNeverBoth(fetchedFollowers: seq<string>, fetchedFollowing: seq<string>, x: string)
    ensures !(Follow(x) in Plan(fetchedFollowers, fetchedFollowing) && Unfollow(x) in Plan(fetchedFollowers, fetchedFollowing))
  {
    PlanFollows(fetchedFollowers, fetchedFollowing, x);
    PlanUnfollows(fetchedFollowers, fetchedFollowing, x);
  }

  /**
    All follow calls come before all unfollow calls, and each kind of call is
    made in ascending order of the account name.
  */
  lemma PlanOrder(fetchedFollowers: seq<string>, fetchedFollowing: seq<string>)
    ensures var p := Plan(fetchedFollowers, fetchedFollowing);
      forall i, j :: 0 <= i < j < |p| && p[j].Follow? ==> p[i].Follow?
    ensures var p := Plan(fetchedFollowers, fetchedFollowing);
      forall i, j :: 0 <= i < j < |p| && p[i].Follow? == p[j].Follow? ==> Le(p[i].user, p[j].user)
  {
    var followers, following := Sort(fetchedFollowers), Sort(fetchedFollowing);
    var ul := UnfollowList(followers, following);
    FollowBackOrdered(followers, following);
    UnfollowOrdered(followers, following);
    WithoutIsSubsequence(ul, Elems(Exempt));
    SubsequenceSorted(UnfollowTargets(ul), ul);
    CallsOrder(FollowBackList(followers, following), UnfollowTargets(ul));
  }

  lemma CallsOrder(follow: seq<string>, unfollow: seq<string>)
    requires Sorted(follow) && Sorted(unfollow)
    ensures var p := Follows(follow) + Unfollows(unfollow);
      forall i, j :: 0 <= i < j < |p| && p[j].Follow? ==> p[i].Follow?
    ensures var p := Follows(follow) + Unfollows(unfollow);
      forall i, j :: 0 <= i < j < |p| && p[i].Follow? == p[j].Follow? ==> Le(p[i].user, p[j].user)
  {
    var p := Follows(follow) + Unfollows(unfollow);
    forall i, j | 0 <= i < j < |p| && p[i].Follow? == p[j].Follow?
      ensures Le(p[i].user, p[j].user)
    {
      if j < |follow| {
        assert p[i].user == follow[i] && p[j].user == follow[j];
      } else if |follow| <= i {
        assert p[i].user == unfollow[i - |follow|] && p[j].user == unfollow[j - |follow|];
      }
    }
  }

  /**
    The calls depend only on which names the fetched lists hold and how
    often, not on the order the service returned them in.
  */
  lemma PlanIgnoresFetchOrder(followers: seq<string>, followers': seq<string>, following: seq<string>, following': seq<string>)
    requires multiset(followers) == multiset(followers')
    requires multiset(following) == multiset(following')
    ensures Plan(followers, following) == Plan(followers', following')
  {
    SortIsCanonical(followers, Sort(followers'));
    SortIsCanonical(following, Sort(following'));
  }
}
