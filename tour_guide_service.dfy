/**
 * The tour-guide service: a registry of users keyed by name, a location cache
 * keyed by user id in front of the geolocation provider, the five nearest
 * attractions, and the reward-point total sent to the trip pricer.
 */
module TourGuide {
  import opened Domain
  import opened Selection
  import opened RewardRules
  import opened Rewards

  const TRIP_PRICER_API_KEY: string := "test-server-api-key"
  /** How many attractions the nearby query returns. */
  const NEARBY_ATTRACTION_COUNT: nat := 5

  // ---------------------------------------------------------------------------
  // String.trim: strips every leading and trailing character up to U+0020

  predicate Blank(c: char)
  {
    c <= ' '
  }

  /** Neither the first nor the last character is blank. */
  predicate IsTrimmedName(s: string)
  {
    s == [] || (!Blank(s[0]) && !Blank(s[|s| - 1]))
  }

  function TrimStart(s: string): (r: string)
    ensures |r| <= |s| && r == s[|s| - |r|..]
    ensures forall k :: 0 <= k < |s| - |r| ==> Blank(s[k])
    ensures r != [] ==> !Blank(r[0])
    decreases |s|
  {
    if s != [] && Blank(s[0]) then TrimStart(s[1..]) else s
  }

  function TrimEnd(s: string): (r: string)
    ensures |r| <= |s| && r == s[..|r|]
    ensures forall k :: |r| <= k < |s| ==> Blank(s[k])
    ensures r != [] ==> !Blank(r[|r| - 1])
    decreases |s|
  {
    if s != [] && Blank(s[|s| - 1]) then TrimEnd(s[..|s| - 1]) else s
  }

  /**
   * The trimmed name: the slice `s[i..j]` of `s` left once every blank
   * character before `i` and from `j` on is cut away.
   */
  function Trim(s: string): (r: string)
    ensures IsTrimmedName(r)
    ensures exists i, j :: 0 <= i <= j <= |s| && r == s[i..j]
              && (forall k :: 0 <= k < i ==> Blank(s[k]))
              && (forall k :: j <= k < |s| ==> Blank(s[k]))
  {
    var t := TrimStart(s);
    var r := TrimEnd(t);
    var i := |s| - |t|;
    assert r == s[i..i + |r|];
    r
  }

  /** Trimming leaves a name alone exactly when it has no blank at either end. */
  lemma TrimIdentity(s: string)
    ensures Trim(s) == s <==> IsTrimmedName(s)
  {
    if IsTrimmedName(s) && s != [] {
      assert TrimStart(s) == s;
      assert TrimEnd(s) == s;
    }
  }

  /** Trimming twice is trimming once. */
  lemma TrimIdempotent(s: string)
    ensures Trim(Trim(s)) == Trim(s)
  {
    TrimIdentity(Trim(s));
  }

  /** A name with a blank at either end is never what a lookup searches for. */
  lemma UntrimmedNameNeverLookedUp(name: string, query: string)
    requires !IsTrimmedName(name)
    ensures Trim(query) != name
  {
  }

  // ---------------------------------------------------------------------------
  // Reward points handed to the trip pricer

  /** The sum of the points of a reward list, without overflow. */
  function TotalRewardPoints(rewards: seq<UserReward>): (total: int)
    ensures (forall i :: 0 <= i < |rewards| ==> rewards[i].rewardPoints >= 0) ==> total >= 0
    decreases |rewards|
  {
    if rewards == [] then 0
    else TotalRewardPoints(rewards[..|rewards| - 1]) + rewards[|rewards| - 1].rewardPoints
  }

  /** The value a Java `int` holds after an addition chain whose exact result is `x`. */
  function ToInt32(x: int): (r: int)
    ensures -0x8000_0000 <= r < 0x8000_0000
    ensures (r - x) % 0x1_0000_0000 == 0
    ensures -0x8000_0000 <= x < 0x8000_0000 ==> r == x
  {
    (x + 0x8000_0000) % 0x1_0000_0000 - 0x8000_0000
  }

  lemma {:induction false} TotalRewardPointsAppend(a: seq<UserReward>, b: seq<UserReward>)
    ensures TotalRewardPoints(a + b) == TotalRewardPoints(a) + TotalRewardPoints(b)
    decreases |b|
  {
    if b == [] {
      assert a + b == a;
    } else {
      var init := b[..|b| - 1];
      TotalRewardPointsAppend(a, init);
      assert (a + b)[..|a + b| - 1] == a + init;
    }
  }

  /** Rewards worth at least one point each total at least their number. */
  lemma {:induction false} TotalAtLeastCount(rewards: seq<UserReward>)
    requires forall k :: 0 <= k < |rewards| ==> rewards[k].rewardPoints >= 1
    ensures TotalRewardPoints(rewards) >= |rewards|
    decreases |rewards|
  {
    if rewards != [] {
      TotalAtLeastCount(rewards[..|rewards| - 1]);
    }
  }

  /** Appending only rewards the rules allow raises the total by at least one point per reward. */
  lemma SoundRaisesTotal(ctx: RewardContext, r: seq<UserReward>, res: seq<UserReward>,
                         visits: seq<VisitedLocation>, cands: seq<Attraction>)
    requires Sound(ctx, r, res, visits, cands)
    ensures TotalRewardPoints(res) >= TotalRewardPoints(r) + (|res| - |r|)
  {
    var added := res[|r|..];
    assert res == r + added;
    TotalRewardPointsAppend(r, added);
    forall k | 0 <= k < |added| ensures added[k].rewardPoints >= 1 {
      assert added[k] == res[|r| + k];
    }
    TotalAtLeastCount(added);
  }

  /** A reward calculation raises the user's total by at least one point per reward it adds. */
  lemma CalculateRewardsRaisesTotal(ctx: RewardContext, maxAttractionsToCheck: int, catalog: seq<Attraction>,
                                    visits: seq<VisitedLocation>, state: RewardState)
    requires CalculateRewardsSpec(ctx, maxAttractionsToCheck, catalog, visits, state).Success?
    ensures var s := CalculateRewardsSpec(ctx, maxAttractionsToCheck, catalog, visits, state).value;
            TotalRewardPoints(s.userRewards) >= TotalRewardPoints(state.userRewards) + (|s.userRewards| - |state.userRewards|)
  {
    var s := CalculateRewardsSpec(ctx, maxAttractionsToCheck, catalog, visits, state).value;
    CalculateRewardsAppendOnly(ctx, maxAttractionsToCheck, catalog, visits, state);
    SoundRaisesTotal(ctx, state.userRewards, s.userRewards, visits,
                     AttractionsToCheck(catalog, s.distanceCache, maxAttractionsToCheck));
  }

  // ---------------------------------------------------------------------------
  // The nearby query

  /**
   * The five attractions closest to `loc`, nearest first; no attraction left
   * out is closer than one returned.
   */
  function NearestAttractions(catalog: seq<Attraction>, distance: (Location, Location) -> real, loc: Location): (r: seq<Attraction>)
    ensures |r| == if NEARBY_ATTRACTION_COUNT < |catalog| then NEARBY_ATTRACTION_COUNT else |catalog|
    ensures forall a :: a in r ==> a in catalog
    ensures forall i, j :: 0 <= i < j < |r| ==> distance(r[i].location, loc) <= distance(r[j].location, loc)
    ensures forall x, y :: x in r && y in catalog && multiset(r)[y] < multiset(catalog)[y] ==>
              distance(x.location, loc) <= distance(y.location, loc)
  {
    var key := (a: Attraction) => distance(a.location, loc);
    var r := TakeNearest(catalog, key, NEARBY_ATTRACTION_COUNT);
    NearestByKey(catalog, distance, loc, key, r);
    r
  }

  lemma NearestByKey(catalog: seq<Attraction>, distance: (Location, Location) -> real, loc: Location,
                     key: Attraction -> real, r: seq<Attraction>)
    requires forall a :: key(a) == distance(a.location, loc)
    requires r == TakeNearest(catalog, key, NEARBY_ATTRACTION_COUNT)
    ensures forall a :: a in r ==> a in catalog
    ensures forall i, j :: 0 <= i < j < |r| ==> distance(r[i].location, loc) <= distance(r[j].location, loc)
    ensures forall x, y :: x in r && y in catalog && multiset(r)[y] < multiset(catalog)[y] ==>
              distance(x.location, loc) <= distance(y.location, loc)
  {
    forall a | a in r ensures a in catalog {
      assert a in multiset(r);
    }
    forall i, j | 0 <= i < j < |r| ensures distance(r[i].location, loc) <= distance(r[j].location, loc) {
      assert key(r[i]) <= key(r[j]);
    }
    forall x, y | x in r && y in catalog && multiset(r)[y] < multiset(catalog)[y]
      ensures distance(x.location, loc) <= distance(y.location, loc)
    {
      assert key(x) <= key(y);
    }
  }

  // ---------------------------------------------------------------------------
  // Registry helpers

  /** `put` of each user under its name, in order: a later user replaces an earlier one of the same name. */
  function PutAll(m: map<string, User>, users: seq<User>): (r: map<string, User>)
    ensures r.Keys == m.Keys + (set u | u in users :: u.userName)
    ensures forall k :: k in m && k !in (set u | u in users :: u.userName) ==> r[k] == m[k]
    ensures (forall k :: k in m ==> m[k].userName == k) ==> forall k :: k in r ==> r[k].userName == k
    decreases |users|
  {
    if users == [] then m
    else
      var init := users[..|users| - 1];
      var u := users[|users| - 1];
      assert users == init + [u];
      PutAll(m, init)[u.userName := u]
  }

  class TourGuideService {
    const gpsUtil: GpsUtil
    const rewardsService: RewardsService
    const tripPricer: (string, UUID, int, int, int, int) -> seq<Provider>
    var allUsers: Option<seq<User>>
    var internalUserMap: map<string, User>
    var locationCache: map<UUID, VisitedLocation>
    /** Reward calculations started by tracking and not yet run, oldest first. */
    var pendingRewards: seq<User>

    /** Users are filed under their own names; cached locations under their own user ids. */
    ghost predicate Valid()
      reads this
    {
      && (forall name :: name in internalUserMap ==> internalUserMap[name].userName == name)
      && (forall id :: id in locationCache ==> locationCache[id].userId == id)
    }

    /**
     * The service with the users the start-up generator made (none in the
     * unit tests), an empty location cache and no user list.
     */
    constructor (gpsUtil: GpsUtil, rewardsService: RewardsService,
                 tripPricer: (string, UUID, int, int, int, int) -> seq<Provider>, internalUsers: seq<User>)
      ensures Valid()
      ensures this.gpsUtil == gpsUtil && this.rewardsService == rewardsService && this.tripPricer == tripPricer
      ensures internalUserMap == PutAll(map[], internalUsers)
      ensures allUsers == None && locationCache == map[] && pendingRewards == []
    {
      this.gpsUtil := gpsUtil;
      this.rewardsService := rewardsService;
      this.tripPricer := tripPricer;
      allUsers := None;
      internalUserMap := map[];
      locationCache := map[];
      pendingRewards := [];
      new;
      InitializeInternalUsers(internalUsers);
    }

    /** Files each generated user under its name with a plain `put`. */
    method InitializeInternalUsers(users: seq<User>)
      requires Valid()
      modifies this`internalUserMap
      ensures Valid()
      ensures internalUserMap == PutAll(old(internalUserMap), users)
    {
      for i := 0 to |users|
        invariant internalUserMap == PutAll(old(internalUserMap), users[..i])
        invariant Valid()
      {
        var user := users[i];
        internalUserMap := internalUserMap[user.userName := user];
        assert users[..i + 1][..i] == users[..i];
      }
      assert users[..|users|] == users;
    }

    /**
     * Replaces the user list with a copy of the argument: null throws an
     * illegal-argument error, an empty list an illegal-state error, and
     * neither changes anything.
     */
    method SetAllUsers(users: Option<seq<User>>) returns (outcome: Outcome)
      modifies this`allUsers
      ensures users.None? ==> outcome == Fail(IllegalArgument("User list must not be null."))
      ensures users == Some([]) ==> outcome == Fail(IllegalState("User list is empty. Cannot initialize users."))
      ensures outcome.Pass? <==> users.Some? && users.value != []
      ensures outcome.Pass? ==> allUsers == users
      ensures outcome.Fail? ==> allUsers == old(allUsers)
    {
      if users.None? {
        return Fail(IllegalArgument("User list must not be null."));
      }
      if users.value == [] {
        return Fail(IllegalState("User list is empty. Cannot initialize users."));
      }
      allUsers := Some(users.value);
      outcome := Pass;
    }

    /**
     * The user filed under the trimmed name; an unknown name throws instead of
     * answering null.
     */
    function GetUser(userName: string): (r: Result<User>)
      reads this
      requires Valid()
      ensures r.Success? <==> Trim(userName) in internalUserMap
      ensures r.Success? ==> r.value in internalUserMap.Values && r.value.userName == Trim(userName)
      ensures r.Failure? ==> r.error == IllegalArgument("User " + userName + " not found")
    {
      var key := Trim(userName);
      if key in internalUserMap then Success(internalUserMap[key])
      else Failure(IllegalArgument("User " + userName + " not found"))
    }

    /** A fresh list holding every registered user exactly once. */
    method GetAllUsers() returns (users: seq<User>)
      requires Valid()
      ensures |users| == |internalUserMap|
      ensures forall u :: u in users <==> u in internalUserMap.Values
      ensures forall i, j :: 0 <= i < j < |users| ==> users[i] != users[j]
    {
      users := [];
      var names := internalUserMap.Keys;
      while names != {}
        invariant names <= internalUserMap.Keys
        invariant |users| + |names| == |internalUserMap|
        invariant forall u :: u in users <==> u in internalUserMap.Values && u.userName !in names
        invariant forall i, j :: 0 <= i < j < |users| ==> users[i] != users[j]
        decreases names
      {
        var name :| name in names;
        var user := internalUserMap[name];
        users := users + [user];
        names := names - {name};
      }
    }

    /**
     * Files the user under its name unless the name is taken; a newly filed
     * user with a trimmed name is what `GetUser` of that name returns.
     */
    method AddUser(user: User)
      requires Valid()
      modifies this`internalUserMap
      ensures Valid()
      ensures internalUserMap == if user.userName in old(internalUserMap) then old(internalUserMap)
                                 else old(internalUserMap)[user.userName := user]
      ensures user.userName in old(internalUserMap) ==>
                internalUserMap[user.userName] == old(internalUserMap)[user.userName]
      ensures user.userName !in old(internalUserMap) && IsTrimmedName(user.userName) ==>
                GetUser(user.userName) == Success(user)
    {
      if user.userName !in internalUserMap {
        internalUserMap := internalUserMap[user.userName := user];
        TrimIdentity(user.userName);
      }
    }

    /**
     * The user's location: a cached one is returned without asking the
     * provider; otherwise the provider is asked once, the answer is appended
     * to the history and cached, and a reward calculation for the user is
     * started without being waited for.
     */
    method TrackUserLocation(user: User) returns (v: VisitedLocation)
      requires Valid()
      modifies this`locationCache, this`pendingRewards, user`visitedLocations, gpsUtil`calls
      ensures Valid()
      ensures v.userId == user.userId
      ensures user.userId in old(locationCache) ==>
                && v == old(locationCache)[user.userId]
                && gpsUtil.calls == old(gpsUtil.calls)
                && user.visitedLocations == old(user.visitedLocations)
                && locationCache == old(locationCache)
                && pendingRewards == old(pendingRewards)
      ensures user.userId !in old(locationCache) ==>
                && gpsUtil.calls == old(gpsUtil.calls) + 1
                && v == VisitedLocation(user.userId, gpsUtil.locate(user.userId, old(gpsUtil.calls)), old(gpsUtil.calls))
                && user.visitedLocations == old(user.visitedLocations) + [v]
                && locationCache == old(locationCache)[user.userId := v]
                && pendingRewards == old(pendingRewards) + [user]
    {
      if user.userId in locationCache {
        return locationCache[user.userId];
      }
      v := gpsUtil.GetUserLocation(user.userId);
      user.AddToVisitedLocations(v);
      pendingRewards := pendingRewards + [user];
      locationCache := locationCache[user.userId := v];
    }

    /** The last visit when there is one, without tracking; otherwise the tracked location. */
    method GetUserLocation(user: User) returns (v: VisitedLocation)
      requires Valid()
      modifies this`locationCache, this`pendingRewards, user`visitedLocations, gpsUtil`calls
      ensures Valid()
      ensures v.userId == user.userId || old(user.visitedLocations) != []
      ensures old(user.visitedLocations) != [] ==>
                && v == old(user.visitedLocations)[|old(user.visitedLocations)| - 1]
                && user.visitedLocations == old(user.visitedLocations)
                && gpsUtil.calls == old(gpsUtil.calls)
                && locationCache == old(locationCache) && pendingRewards == old(pendingRewards)
      ensures old(user.visitedLocations) == [] && user.userId in old(locationCache) ==>
                && v == old(locationCache)[user.userId]
                && user.visitedLocations == []
                && gpsUtil.calls == old(gpsUtil.calls)
                && locationCache == old(locationCache) && pendingRewards == old(pendingRewards)
      ensures old(user.visitedLocations) == [] && user.userId !in old(locationCache) ==>
                && gpsUtil.calls == old(gpsUtil.calls) + 1
                && v == VisitedLocation(user.userId, gpsUtil.locate(user.userId, old(gpsUtil.calls)), old(gpsUtil.calls))
                && user.visitedLocations == [v]
                && locationCache == old(locationCache)[user.userId := v]
                && pendingRewards == old(pendingRewards) + [user]
    {
      if user.visitedLocations != [] {
        v := user.GetLastVisitedLocation();
      } else {
        v := TrackUserLocation(user);
      }
    }

    /** The cache forgets one entry, as its size bound or its five-minute expiry may make it do at any time. */
    method ExpireLocation(userId: UUID)
      requires Valid()
      modifies this`locationCache
      ensures Valid()
      ensures locationCache == old(locationCache) - {userId}
    {
      locationCache := locationCache - {userId};
    }

    /** Runs the oldest reward calculation started by tracking. */
    method RunPendingRewardCalculation() returns (outcome: Outcome)
      requires Valid() && pendingRewards != []
      modifies this`pendingRewards, rewardsService`distanceCache, (pendingRewards[0] as User)`userRewards
      ensures Valid()
      ensures pendingRewards == old(pendingRewards)[1..]
      ensures var user := old(pendingRewards)[0];
              CalculateRewardsSpec(rewardsService.Context(user), rewardsService.maxAttractionsToCheck,
                                   rewardsService.gpsUtil.attractions, user.visitedLocations,
                                   RewardState(old(rewardsService.distanceCache), old(user.userRewards)))
              == if outcome.Pass? then Success(RewardState(rewardsService.distanceCache, user.userRewards))
                 else Failure(outcome.error)
    {
      var user := pendingRewards[0];
      pendingRewards := pendingRewards[1..];
      outcome := rewardsService.CalculateRewards(user);
    }

    /** The nearby query over the provider's catalog, measured from the visit. */
    function GetNearByAttractions(visitedLocation: VisitedLocation): (r: seq<Attraction>)
      ensures |r| == if NEARBY_ATTRACTION_COUNT < |gpsUtil.attractions| then NEARBY_ATTRACTION_COUNT else |gpsUtil.attractions|
      ensures forall a :: a in r ==> a in gpsUtil.attractions
      ensures forall i, j :: 0 <= i < j < |r| ==>
                rewardsService.distance(r[i].location, visitedLocation.location)
                <= rewardsService.distance(r[j].location, visitedLocation.location)
      ensures forall x, y :: x in r && y in gpsUtil.attractions && multiset(r)[y] < multiset(gpsUtil.attractions)[y] ==>
                rewardsService.distance(x.location, visitedLocation.location)
                <= rewardsService.distance(y.location, visitedLocation.location)
    {
      NearestAttractions(gpsUtil.attractions, rewardsService.distance, visitedLocation.location)
    }

    /**
     * Asks the trip pricer for offers on the user's total reward points (as a
     * Java `int` sum) and stores them on the user.
     */
    method GetTripDeals(user: User) returns (providers: seq<Provider>)
      modifies user`tripDeals
      ensures providers == tripPricer(TRIP_PRICER_API_KEY, user.userId, user.userPreferences.numberOfAdults,
                                      user.userPreferences.numberOfChildren, user.userPreferences.tripDuration,
                                      ToInt32(TotalRewardPoints(user.userRewards)))
      ensures user.tripDeals == providers
    {
      var rewardPoints := ToInt32(TotalRewardPoints(user.userRewards));
      providers := tripPricer(TRIP_PRICER_API_KEY, user.userId, user.userPreferences.numberOfAdults,
                              user.userPreferences.numberOfChildren, user.userPreferences.tripDuration, rewardPoints);
      user.SetTripDeals(providers);
    }
  }
}
