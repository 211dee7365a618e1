/**
 * The reward service: configuration that setters change in place, the
 * name-keyed distance memo filled by compute-if-absent, and the sequential
 * reward calculation for one user, proved to compute `CalculateRewardsSpec`.
 */
module Rewards {
  import opened Domain
  import opened Selection
  import opened RewardRules

  /** How many candidates a fresh service checks. */
  const DEFAULT_MAX_ATTRACTIONS_TO_CHECK: int := 10

  /** A usable thread pool is present and not shut down. */
  predicate ExecutorActive(executor: Option<ExecutorState>)
  {
    executor.Some? && !executor.value.isShutdown
  }

  class RewardsService {
    const gpsUtil: GpsUtil
    const rewardsCentral: (UUID, UUID) -> int
    const distance: (Location, Location) -> real
    var proximityBuffer: int
    var maxAttractionsToCheck: int
    var distanceCache: map<string, real>
    var allUsers: seq<User>

    /** Reached only through `NewRewardsService`, which performs the executor check. */
    constructor (gpsUtil: GpsUtil, rewardsCentral: (UUID, UUID) -> int, distance: (Location, Location) -> real)
      ensures this.gpsUtil == gpsUtil && this.rewardsCentral == rewardsCentral && this.distance == distance
      ensures proximityBuffer == DEFAULT_PROXIMITY_BUFFER
      ensures maxAttractionsToCheck == DEFAULT_MAX_ATTRACTIONS_TO_CHECK
      ensures distanceCache == map[] && allUsers == []
    {
      this.gpsUtil := gpsUtil;
      this.rewardsCentral := rewardsCentral;
      this.distance := distance;
      proximityBuffer := DEFAULT_PROXIMITY_BUFFER;
      maxAttractionsToCheck := DEFAULT_MAX_ATTRACTIONS_TO_CHECK;
      distanceCache := map[];
      allUsers := [];
    }

    method SetMaxAttractionsToCheck(maxAttractionsToCheck: int)
      modifies this`maxAttractionsToCheck
      ensures this.maxAttractionsToCheck == maxAttractionsToCheck
    {
      this.maxAttractionsToCheck := maxAttractionsToCheck;
    }

    /**
     * Replaces the stored user list; a null or empty argument throws before
     * anything is cleared.
     */
    method SetAllUsers(users: Option<seq<User>>) returns (outcome: Outcome)
      modifies this`allUsers
      ensures outcome.Fail? <==> users.None? || users.value == []
      ensures outcome.Fail? ==> outcome.error == IllegalState("User list is empty. Cannot initialize users.")
      ensures outcome.Fail? ==> allUsers == old(allUsers)
      ensures outcome.Pass? ==> allUsers == users.value
    {
      if users.None? || users.value == [] {
        return Fail(IllegalState("User list is empty. Cannot initialize users."));
      }
      allUsers := [];
      allUsers := allUsers + users.value;
      outcome := Pass;
    }

    method SetProximityBuffer(proximityBuffer: int)
      modifies this`proximityBuffer
      ensures this.proximityBuffer == proximityBuffer
    {
      this.proximityBuffer := proximityBuffer;
    }

    method SetDefaultProximityBuffer()
      modifies this`proximityBuffer
      ensures proximityBuffer == DEFAULT_PROXIMITY_BUFFER
    {
      proximityBuffer := DEFAULT_PROXIMITY_BUFFER;
    }

    /** The settings one calculation for `user` runs under. */
    function Context(user: User): RewardContext
      reads this
    {
      RewardContext(distance, proximityBuffer, rewardsCentral, user.userId)
    }

    /**
     * Compute-if-absent on the attraction's name: a memoised name returns its
     * value untouched, whatever `location` is; a new name is measured from
     * `location` and stored.
     */
    method CachedDistance(location: Location, attraction: Attraction) returns (d: real)
      modifies this`distanceCache
      ensures distanceCache == FillCache(old(distanceCache), location, [attraction], distance)
      ensures attraction.attractionName in old(distanceCache) ==>
                d == old(distanceCache)[attraction.attractionName] && distanceCache == old(distanceCache)
      ensures attraction.attractionName !in old(distanceCache) ==>
                d == distance(location, attraction.location) &&
                distanceCache == old(distanceCache)[attraction.attractionName := d]
    {
      if attraction.attractionName in distanceCache {
        d := distanceCache[attraction.attractionName];
      } else {
        d := distance(location, attraction.location);
        distanceCache := distanceCache[attraction.attractionName := d];
      }
      assert [attraction][..0] == [];
    }

    /** The fixed 200-unit viewing test; the proximity buffer plays no part in it. */
    function IsWithinAttractionProximity(attraction: Attraction, location: Location): (within: bool)
      ensures within <==> distance(attraction.location, location) <= 200.0
    {
      WithinAttractionProximity(distance(attraction.location, location))
    }

    /** Reward eligibility under the current buffer, measured without the memo. */
    function NearAttraction(visitedLocation: VisitedLocation, attraction: Attraction): (near: bool)
      reads this
      ensures near <==> distance(attraction.location, visitedLocation.location) <= proximityBuffer as real
    {
      RewardRules.NearAttraction(distance(attraction.location, visitedLocation.location), proximityBuffer)
    }

    /** The provider's points for this attraction and user, never less than one. */
    function GetRewardPoints(attraction: Attraction, user: User): (points: int)
      ensures points >= 1
      ensures points >= rewardsCentral(attraction.attractionId, user.userId)
      ensures rewardsCentral(attraction.attractionId, user.userId) >= 1 ==>
                points == rewardsCentral(attraction.attractionId, user.userId)
    {
      RewardPoints(rewardsCentral(attraction.attractionId, user.userId))
    }

    /**
     * The sort's key extractor run over the whole catalog: each attraction's
     * distance from `location` goes through the memo.
     */
    method MemoiseDistances(location: Location, attractions: seq<Attraction>)
      modifies this`distanceCache
      ensures distanceCache == FillCache(old(distanceCache), location, attractions, distance)
    {
      var i := 0;
      while i < |attractions|
        invariant 0 <= i <= |attractions|
        invariant distanceCache == FillCache(old(distanceCache), location, attractions[..i], distance)
      {
        var _ := CachedDistance(location, attractions[i]);
        assert attractions[..i + 1][..i] == attractions[..i];
        i := i + 1;
      }
      assert attractions[..i] == attractions;
    }

    /**
     * The two nested loops: every visit against every candidate, appending a
     * reward when the visit is within the buffer and the id is not yet rewarded.
     */
    method RewardVisits(user: User, userLocations: seq<VisitedLocation>, attractionsToCheck: seq<Attraction>)
      modifies user`userRewards
      ensures user.userRewards == RewardPass(Context(user), old(user.userRewards), userLocations, attractionsToCheck)
    {
      ghost var ctx := Context(user);
      for vi := 0 to |userLocations|
        invariant user.userRewards == RewardPass(ctx, old(user.userRewards), userLocations[..vi], attractionsToCheck)
      {
        var visitedLocation := userLocations[vi];
        ghost var before := user.userRewards;
        for ai := 0 to |attractionsToCheck|
          invariant user.userRewards == VisitPass(ctx, before, visitedLocation, attractionsToCheck[..ai])
        {
          var attraction := attractionsToCheck[ai];
          if NearAttraction(visitedLocation, attraction) {
            var alreadyRewarded := AlreadyRewarded(user.userRewards, attraction.attractionId);
            if !alreadyRewarded {
              var points := GetRewardPoints(attraction, user);
              user.AddUserReward(UserReward(visitedLocation, attraction, points));
            }
          }
          assert attractionsToCheck[..ai + 1][..ai] == attractionsToCheck[..ai];
        }
        assert attractionsToCheck[..|attractionsToCheck|] == attractionsToCheck;
        assert userLocations[..vi + 1][..vi] == userLocations[..vi];
      }
      assert userLocations[..|userLocations|] == userLocations;
    }

    /**
     * Rewards `user` for every candidate attraction one of its visits lies
     * within the buffer of, once per attraction id. Throws, changing nothing,
     * when the sort needs the last visit of an empty history.
     */
    method CalculateRewards(user: User) returns (outcome: Outcome)
      modifies this`distanceCache, user`userRewards
      ensures CalculateRewardsSpec(Context(user), maxAttractionsToCheck, gpsUtil.attractions, user.visitedLocations,
                                   RewardState(old(distanceCache), old(user.userRewards)))
              == if outcome.Pass? then Success(RewardState(distanceCache, user.userRewards)) else Failure(outcome.error)
      ensures outcome.Fail? ==> distanceCache == old(distanceCache) && user.userRewards == old(user.userRewards)
    {
      var userLocations := user.visitedLocations;
      var attractions := gpsUtil.attractions;
      if |attractions| >= 2 {
        if userLocations == [] {
          return Fail(IndexOutOfBounds);
        }
        MemoiseDistances(user.GetLastVisitedLocation().location, attractions);
      }
      var attractionsToCheck := AttractionsToCheck(attractions, distanceCache, maxAttractionsToCheck);
      RewardVisits(user, userLocations, attractionsToCheck);
      outcome := Pass;
    }
  }

  /**
   * The service's constructor: it throws when the thread pool is null or
   * already shut down, and otherwise starts with the default buffer, ten
   * candidates, an empty memo and no users.
   */
  method NewRewardsService(gpsUtil: GpsUtil, rewardsCentral: (UUID, UUID) -> int,
                           distance: (Location, Location) -> real, executor: Option<ExecutorState>)
    returns (r: Result<RewardsService>)
    ensures r.Failure? <==> !ExecutorActive(executor)
    ensures r.Failure? ==> r.error == IllegalState("ExecutorService must be initialized and active")
    ensures r.Success? ==> && fresh(r.value)
                           && r.value.gpsUtil == gpsUtil && r.value.distance == distance
                           && r.value.rewardsCentral == rewardsCentral
                           && r.value.proximityBuffer == DEFAULT_PROXIMITY_BUFFER
                           && r.value.maxAttractionsToCheck == DEFAULT_MAX_ATTRACTIONS_TO_CHECK
                           && r.value.distanceCache == map[] && r.value.allUsers == []
  {
    if !ExecutorActive(executor) {
      return Failure(IllegalState("ExecutorService must be initialized and active"));
    }
    var service := new RewardsService(gpsUtil, rewardsCentral, distance);
    r := Success(service);
  }
}
