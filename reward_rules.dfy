/**
 * The rules of the reward calculation as values: the points floor, the two
 * proximity tests, the name-keyed distance memo, the candidate selection and
 * the nested walk over (visit, candidate) pairs that appends rewards. The
 * `RewardsService` class runs these steps in place; this module says what
 * they compute and proves what the calculation promises.
 */
module RewardRules {
  import opened Domain
  import opened Selection

  /** The reward buffer used until a setter changes it (in the distance oracle's unit). */
  const DEFAULT_PROXIMITY_BUFFER: int := 10
  /** The fixed radius of the "is this attraction nearby" query. */
  const ATTRACTION_PROXIMITY_RANGE: int := 200

  /** The points granted for a reward: the provider's answer, floored at one point. */
  function RewardPoints(providerPoints: int): (points: int)
    ensures points >= 1
    ensures providerPoints >= 1 ==> points == providerPoints
    ensures providerPoints < 1 ==> points == 1
  {
    if providerPoints >= 1 then providerPoints else 1
  }

  /** Reward eligibility: the distance is within the (inclusive) proximity buffer. */
  predicate NearAttraction(d: real, proximityBuffer: int)
  {
    d <= proximityBuffer as real
  }

  /** The viewing test: the distance is within the fixed 200-unit range, whatever the buffer. */
  predicate WithinAttractionProximity(d: real)
  {
    d <= ATTRACTION_PROXIMITY_RANGE as real
  }

  /** An attraction is within viewing range of its own position when the distance vanishes on the diagonal. */
  lemma AttractionWithinProximityOfItself(distance: (Location, Location) -> real, a: Attraction)
    requires distance(a.location, a.location) == 0.0
    ensures WithinAttractionProximity(distance(a.location, a.location))
  {
  }

  /** `Math.max(1, maxAttractionsToCheck)`: at least one candidate is always checked. */
  function CandidateCount(maxAttractionsToCheck: int): (k: nat)
    ensures k >= 1
    ensures maxAttractionsToCheck >= 1 ==> k == maxAttractionsToCheck
  {
    if maxAttractionsToCheck >= 1 then maxAttractionsToCheck else 1
  }

  /** What one reward calculation depends on besides the user's lists. */
  datatype RewardContext = RewardContext(
    distance: (Location, Location) -> real,
    proximityBuffer: int,
    rewardPoints: (UUID, UUID) -> int,
    userId: UUID)

  /** A visit earns the attraction's reward when it lies within the buffer of it. */
  predicate Eligible(ctx: RewardContext, v: VisitedLocation, a: Attraction)
  {
    NearAttraction(ctx.distance(a.location, v.location), ctx.proximityBuffer)
  }

  /** Some reward in the list is for an attraction with this id. */
  predicate AlreadyRewarded(rewards: seq<UserReward>, id: UUID)
  {
    exists k :: 0 <= k < |rewards| && rewards[k].attraction.attractionId == id
  }

  function RewardedIds(rewards: seq<UserReward>): set<UUID>
  {
    set r | r in rewards :: r.attraction.attractionId
  }

  /** No two rewards of the list are for the same attraction id. */
  ghost predicate UniqueAttractions(rewards: seq<UserReward>)
  {
    forall i, j :: 0 <= i < j < |rewards| ==> rewards[i].attraction.attractionId != rewards[j].attraction.attractionId
  }

  /** The body of the inner loop for one (visit, attraction) pair. */
  function Step(ctx: RewardContext, rewards: seq<UserReward>, v: VisitedLocation, a: Attraction): (r: seq<UserReward>)
    ensures |rewards| <= |r| <= |rewards| + 1 && r[..|rewards|] == rewards
    ensures |r| > |rewards| <==> Eligible(ctx, v, a) && !AlreadyRewarded(rewards, a.attractionId)
  {
    if Eligible(ctx, v, a) && !AlreadyRewarded(rewards, a.attractionId) then
      rewards + [UserReward(v, a, RewardPoints(ctx.rewardPoints(a.attractionId, ctx.userId)))]
    else
      rewards
  }

  /** The inner loop: one visit against the candidates, in order. */
  function VisitPass(ctx: RewardContext, rewards: seq<UserReward>, v: VisitedLocation, cands: seq<Attraction>): (r: seq<UserReward>)
    ensures |rewards| <= |r| <= |rewards| + |cands| && r[..|rewards|] == rewards
    decreases |cands|
  {
    if cands == [] then rewards
    else Step(ctx, VisitPass(ctx, rewards, v, cands[..|cands| - 1]), v, cands[|cands| - 1])
  }

  /** Both loops: every visit, in order, against the candidates. */
  function RewardPass(ctx: RewardContext, rewards: seq<UserReward>, visits: seq<VisitedLocation>, cands: seq<Attraction>): (r: seq<UserReward>)
    ensures |rewards| <= |r| && r[..|rewards|] == rewards
    decreases |visits|
  {
    if visits == [] then rewards
    else VisitPass(ctx, RewardPass(ctx, rewards, visits[..|visits| - 1], cands), visits[|visits| - 1], cands)
  }

  /**
   * `res` extends `r`, and each appended reward is for a candidate within the
   * buffer of one of the visits, carries the floored provider points, and its
   * attraction id was absent from the list at the moment it was appended.
   */
  ghost predicate Sound(ctx: RewardContext, r: seq<UserReward>, res: seq<UserReward>,
                        visits: seq<VisitedLocation>, cands: seq<Attraction>)
  {
    && |r| <= |res|
    && res[..|r|] == r
    && forall k :: |r| <= k < |res| ==>
         && res[k].visitedLocation in visits
         && res[k].attraction in cands
         && Eligible(ctx, res[k].visitedLocation, res[k].attraction)
         && !AlreadyRewarded(res[..k], res[k].attraction.attractionId)
         && res[k].rewardPoints == RewardPoints(ctx.rewardPoints(res[k].attraction.attractionId, ctx.userId))
  }

  /** Every (visit, candidate) pair within the buffer has its attraction rewarded in `res`. */
  ghost predicate Complete(ctx: RewardContext, res: seq<UserReward>, visits: seq<VisitedLocation>, cands: seq<Attraction>)
  {
    forall v, a :: v in visits && a in cands && Eligible(ctx, v, a) ==> AlreadyRewarded(res, a.attractionId)
  }

  lemma SoundTrans(ctx: RewardContext, r: seq<UserReward>, m: seq<UserReward>, res: seq<UserReward>,
                   visits: seq<VisitedLocation>, cands: seq<Attraction>)
    requires Sound(ctx, r, m, visits, cands) && Sound(ctx, m, res, visits, cands)
    ensures Sound(ctx, r, res, visits, cands)
  {
    assert res[..|r|] == res[..|m|][..|r|];
    forall k | |r| <= k < |m| ensures res[k] == m[k] && res[..k] == m[..k] {
      assert res[..k] == res[..|m|][..k];
    }
  }

  lemma AlreadyRewardedExtends(r: seq<UserReward>, res: seq<UserReward>, id: UUID)
    requires |r| <= |res| && res[..|r|] == r
    requires AlreadyRewarded(r, id)
    ensures AlreadyRewarded(res, id)
  {
    var k :| 0 <= k < |r| && r[k].attraction.attractionId == id;
    assert res[k] == r[k];
  }

  lemma {:induction false} VisitPassSound(ctx: RewardContext, r: seq<UserReward>, v: VisitedLocation,
                                          cands: seq<Attraction>, visits: seq<VisitedLocation>, allCands: seq<Attraction>)
    requires v in visits
    requires forall a :: a in cands ==> a in allCands
    ensures Sound(ctx, r, VisitPass(ctx, r, v, cands), visits, allCands)
    decreases |cands|
  {
    if cands != [] {
      var init := cands[..|cands| - 1];
      var a := cands[|cands| - 1];
      VisitPassSound(ctx, r, v, init, visits, allCands);
      var m := VisitPass(ctx, r, v, init);
      var res := Step(ctx, m, v, a);
      assert res[..|m|] == m;
      assert Sound(ctx, m, res, visits, allCands);
      SoundTrans(ctx, r, m, res, visits, allCands);
    }
  }

  /** The whole walk only appends, and only rewards that its rules allow. */
  lemma {:induction false} RewardPassSound(ctx: RewardContext, r: seq<UserReward>,
                                           visits: seq<VisitedLocation>, cands: seq<Attraction>)
    ensures Sound(ctx, r, RewardPass(ctx, r, visits, cands), visits, cands)
    decreases |visits|
  {
    if visits == [] {
      assert r[..|r|] == r;
    } else {
      var init := visits[..|visits| - 1];
      var v := visits[|visits| - 1];
      RewardPassSound(ctx, r, init, cands);
      var m := RewardPass(ctx, r, init, cands);
      assert Sound(ctx, r, m, visits, cands) by {
        forall k | |r| <= k < |m| ensures m[k].visitedLocation in visits {
          assert m[k].visitedLocation in init;
        }
      }
      VisitPassSound(ctx, m, v, cands, visits, cands);
      SoundTrans(ctx, r, m, RewardPass(ctx, r, visits, cands), visits, cands);
    }
  }

  lemma {:induction false} VisitPassComplete(ctx: RewardContext, r: seq<UserReward>, v: VisitedLocation, cands: seq<Attraction>)
    ensures forall a :: a in cands && Eligible(ctx, v, a) ==> AlreadyRewarded(VisitPass(ctx, r, v, cands), a.attractionId)
    ensures forall id :: AlreadyRewarded(r, id) ==> AlreadyRewarded(VisitPass(ctx, r, v, cands), id)
    decreases |cands|
  {
    VisitPassSound(ctx, r, v, cands, [v], cands);
    var res := VisitPass(ctx, r, v, cands);
    forall id | AlreadyRewarded(r, id) ensures AlreadyRewarded(res, id) {
      AlreadyRewardedExtends(r, res, id);
    }
    if cands != [] {
      var init := cands[..|cands| - 1];
      var a := cands[|cands| - 1];
      VisitPassComplete(ctx, r, v, init);
      var m := VisitPass(ctx, r, v, init);
      assert res == Step(ctx, m, v, a);
      assert res[..|m|] == m;
      forall b | b in cands && Eligible(ctx, v, b) ensures AlreadyRewarded(res, b.attractionId) {
        if b == a {
          if !AlreadyRewarded(m, a.attractionId) {
            assert res[|m|].attraction.attractionId == a.attractionId;
          } else {
            AlreadyRewardedExtends(m, res, a.attractionId);
          }
        } else {
          assert b in init;
          AlreadyRewardedExtends(m, res, b.attractionId);
        }
      }
    }
  }

  /** After the walk, every eligible (visit, candidate) pair has its attraction rewarded. */
  lemma {:induction false} RewardPassComplete(ctx: RewardContext, r: seq<UserReward>,
                                              visits: seq<VisitedLocation>, cands: seq<Attraction>)
    ensures Complete(ctx, RewardPass(ctx, r, visits, cands), visits, cands)
    decreases |visits|
  {
    if visits != [] {
      var init := visits[..|visits| - 1];
      var v := visits[|visits| - 1];
      RewardPassComplete(ctx, r, init, cands);
      var m := RewardPass(ctx, r, init, cands);
      VisitPassComplete(ctx, m, v, cands);
      forall w, a | w in visits && a in cands && Eligible(ctx, w, a)
        ensures AlreadyRewarded(RewardPass(ctx, r, visits, cands), a.attractionId)
      {
        if w != v {
          assert w in init;
        }
      }
    }
  }

  lemma {:induction false} VisitPassFixpoint(ctx: RewardContext, r: seq<UserReward>, v: VisitedLocation, cands: seq<Attraction>)
    requires forall a :: a in cands && Eligible(ctx, v, a) ==> AlreadyRewarded(r, a.attractionId)
    ensures VisitPass(ctx, r, v, cands) == r
    decreases |cands|
  {
    if cands != [] {
      VisitPassFixpoint(ctx, r, v, cands[..|cands| - 1]);
    }
  }

  /** When every eligible pair is already rewarded, the walk adds nothing. */
  lemma {:induction false} RewardPassFixpoint(ctx: RewardContext, r: seq<UserReward>,
                                              visits: seq<VisitedLocation>, cands: seq<Attraction>)
    requires Complete(ctx, r, visits, cands)
    ensures RewardPass(ctx, r, visits, cands) == r
    decreases |visits|
  {
    if visits != [] {
      RewardPassFixpoint(ctx, r, visits[..|visits| - 1], cands);
      VisitPassFixpoint(ctx, r, visits[|visits| - 1], cands);
    }
  }

  /** Running the walk a second time over the same visits and candidates adds nothing. */
  lemma RewardPassIdempotent(ctx: RewardContext, r: seq<UserReward>,
                             visits: seq<VisitedLocation>, cands: seq<Attraction>)
    ensures RewardPass(ctx, RewardPass(ctx, r, visits, cands), visits, cands) == RewardPass(ctx, r, visits, cands)
  {
    RewardPassComplete(ctx, r, visits, cands);
    RewardPassFixpoint(ctx, RewardPass(ctx, r, visits, cands), visits, cands);
  }

  /** Appending only rewards whose id is absent keeps the attraction ids unique. */
  lemma SoundKeepsUnique(ctx: RewardContext, r: seq<UserReward>, res: seq<UserReward>,
                         visits: seq<VisitedLocation>, cands: seq<Attraction>)
    requires Sound(ctx, r, res, visits, cands)
    requires UniqueAttractions(r)
    ensures UniqueAttractions(res)
  {
    forall i, j | 0 <= i < j < |res|
      ensures res[i].attraction.attractionId != res[j].attraction.attractionId
    {
      if j < |r| {
        assert res[i] == r[i] && res[j] == r[j];
      } else {
        assert res[..j][i] == res[i];
      }
    }
  }

  /** A list of rewards with unique attraction ids has as many ids as rewards. */
  lemma {:induction false} UniqueRewardIdsCount(rewards: seq<UserReward>)
    requires UniqueAttractions(rewards)
    ensures |RewardedIds(rewards)| == |rewards|
    decreases |rewards|
  {
    if rewards != [] {
      var rest := rewards[1..];
      UniqueRewardIdsCount(rest);
      var id := rewards[0].attraction.attractionId;
      assert RewardedIds(rewards) == {id} + RewardedIds(rest) by {
        assert rewards == [rewards[0]] + rest;
      }
      forall x | x in rest ensures x.attraction.attractionId != id {
        var j :| 0 <= j < |rest| && rest[j] == x;
        assert rewards[j + 1] == x;
      }
    }
  }

  /** No two attractions of the catalog share an id. */
  ghost predicate DistinctIds(catalog: seq<Attraction>)
  {
    forall i, j :: 0 <= i < j < |catalog| ==> catalog[i].attractionId != catalog[j].attractionId
  }

  /** No two attractions of the catalog share a name. */
  ghost predicate DistinctNames(catalog: seq<Attraction>)
  {
    forall i, j :: 0 <= i < j < |catalog| ==> catalog[i].attractionName != catalog[j].attractionName
  }

  function AttractionIds(catalog: seq<Attraction>): set<UUID>
  {
    set a | a in catalog :: a.attractionId
  }

  lemma {:induction false} DistinctIdsCount(catalog: seq<Attraction>)
    requires DistinctIds(catalog)
    ensures |AttractionIds(catalog)| == |catalog|
    decreases |catalog|
  {
    if catalog != [] {
      var rest := catalog[1..];
      DistinctIdsCount(rest);
      var id := catalog[0].attractionId;
      assert AttractionIds(catalog) == {id} + AttractionIds(rest) by {
        assert catalog == [catalog[0]] + rest;
      }
      forall x | x in rest ensures x.attractionId != id {
        var j :| 0 <= j < |rest| && rest[j] == x;
        assert catalog[j + 1] == x;
      }
    }
  }

  // ---------------------------------------------------------------------------
  // The name-keyed distance memo

  /**
   * The memo after compute-if-absent for each attraction in turn, all measured
   * from `loc`: a name already present keeps its value, a new name gets the
   * distance from `loc` to the first attraction carrying it.
   */
  function FillCache(cache: map<string, real>, loc: Location, attractions: seq<Attraction>,
                     distance: (Location, Location) -> real): (res: map<string, real>)
    ensures forall n :: n in cache ==> n in res && res[n] == cache[n]
    ensures res.Keys == cache.Keys + (set a | a in attractions :: a.attractionName)
    ensures forall n :: n in res && n !in cache ==>
              exists a :: a in attractions && a.attractionName == n && res[n] == distance(loc, a.location)
    decreases |attractions|
  {
    if attractions == [] then cache
    else
      var init := attractions[..|attractions| - 1];
      var a := attractions[|attractions| - 1];
      assert attractions == init + [a];
      var m := FillCache(cache, loc, init, distance);
      if a.attractionName in m then m else m[a.attractionName := distance(loc, a.location)]
  }

  /**
   * Once every name is memoised, further fills change nothing, whatever
   * location they are asked about: the memo never overwrites.
   */
  lemma {:induction false} FillCacheFixpoint(cache: map<string, real>, loc: Location, attractions: seq<Attraction>,
                                             distance: (Location, Location) -> real)
    requires forall a :: a in attractions ==> a.attractionName in cache
    ensures FillCache(cache, loc, attractions, distance) == cache
    decreases |attractions|
  {
    if attractions != [] {
      FillCacheFixpoint(cache, loc, attractions[..|attractions| - 1], distance);
    }
  }

  /** The sort key: the memoised distance of the attraction's name. */
  function CachedKey(cache: map<string, real>): Attraction -> real
  {
    (a: Attraction) => if a.attractionName in cache then cache[a.attractionName] else 0.0
  }

  /**
   * The candidates: the catalog sorted on memoised distance, cut to
   * `max(1, maxAttractionsToCheck)` attractions.
   */
  function AttractionsToCheck(catalog: seq<Attraction>, cache: map<string, real>, maxAttractionsToCheck: int): (r: seq<Attraction>)
    ensures var k := CandidateCount(maxAttractionsToCheck); |r| == if k < |catalog| then k else |catalog|
    ensures forall a :: a in r ==> a in catalog
    ensures SortedBy(r, CachedKey(cache))
    ensures forall x, y :: x in r && y in catalog && multiset(r)[y] < multiset(catalog)[y] ==>
              CachedKey(cache)(x) <= CachedKey(cache)(y)
  {
    var r := TakeNearest(catalog, CachedKey(cache), CandidateCount(maxAttractionsToCheck));
    assert forall a :: a in r ==> a in multiset(r);
    r
  }

  // ---------------------------------------------------------------------------
  // One whole reward calculation

  /** The part of the service and of the user that a reward calculation updates. */
  datatype RewardState = RewardState(distanceCache: map<string, real>, userRewards: seq<UserReward>)

  /**
   * One `calculateRewards` call. The sort consults the comparator, and so the
   * user's last visit and the memo, only when there are at least two
   * attractions; with an empty history that lookup throws.
   */
  function CalculateRewardsSpec(ctx: RewardContext, maxAttractionsToCheck: int, catalog: seq<Attraction>,
                                visits: seq<VisitedLocation>, state: RewardState): (r: Result<RewardState>)
    ensures r.Failure? <==> visits == [] && |catalog| >= 2
    ensures r.Failure? ==> r.error == IndexOutOfBounds
    ensures r.Success? ==> |state.userRewards| <= |r.value.userRewards|
                           && r.value.userRewards[..|state.userRewards|] == state.userRewards
  {
    if |catalog| >= 2 && visits == [] then Failure(IndexOutOfBounds)
    else
      var cache := if |catalog| >= 2 then FillCache(state.distanceCache, visits[|visits| - 1].location, catalog, ctx.distance)
                   else state.distanceCache;
      var cands := AttractionsToCheck(catalog, cache, maxAttractionsToCheck);
      Success(RewardState(cache, RewardPass(ctx, state.userRewards, visits, cands)))
  }

  /**
   * A calculation only appends rewards, each for a candidate within the buffer
   * of a visit and with a fresh attraction id, so unique ids stay unique; the
   * memo only gains names and keeps every value it had.
   */
  lemma CalculateRewardsAppendOnly(ctx: RewardContext, maxAttractionsToCheck: int, catalog: seq<Attraction>,
                                   visits: seq<VisitedLocation>, state: RewardState)
    requires CalculateRewardsSpec(ctx, maxAttractionsToCheck, catalog, visits, state).Success?
    ensures var s := CalculateRewardsSpec(ctx, maxAttractionsToCheck, catalog, visits, state).value;
            && Sound(ctx, state.userRewards, s.userRewards, visits,
                     AttractionsToCheck(catalog, s.distanceCache, maxAttractionsToCheck))
            && (UniqueAttractions(state.userRewards) ==> UniqueAttractions(s.userRewards))
            && (forall n :: n in state.distanceCache ==> n in s.distanceCache && s.distanceCache[n] == state.distanceCache[n])
  {
    var s := CalculateRewardsSpec(ctx, maxAttractionsToCheck, catalog, visits, state).value;
    var cands := AttractionsToCheck(catalog, s.distanceCache, maxAttractionsToCheck);
    RewardPassSound(ctx, state.userRewards, visits, cands);
    if UniqueAttractions(state.userRewards) {
      SoundKeepsUnique(ctx, state.userRewards, s.userRewards, visits, cands);
    }
  }

  /** A second calculation with unchanged visits and catalog changes neither the memo nor the rewards. */
  lemma CalculateRewardsIdempotent(ctx: RewardContext, maxAttractionsToCheck: int, catalog: seq<Attraction>,
                                   visits: seq<VisitedLocation>, state: RewardState)
    requires CalculateRewardsSpec(ctx, maxAttractionsToCheck, catalog, visits, state).Success?
    ensures var s := CalculateRewardsSpec(ctx, maxAttractionsToCheck, catalog, visits, state).value;
            CalculateRewardsSpec(ctx, maxAttractionsToCheck, catalog, visits, s) == Success(s)
  {
    var s := CalculateRewardsSpec(ctx, maxAttractionsToCheck, catalog, visits, state).value;
    if |catalog| >= 2 {
      FillCacheFixpoint(s.distanceCache, visits[|visits| - 1].location, catalog, ctx.distance);
    }
    var cands := AttractionsToCheck(catalog, s.distanceCache, maxAttractionsToCheck);
    RewardPassIdempotent(ctx, state.userRewards, visits, cands);
  }

  lemma SingleVisitPass(ctx: RewardContext, r: seq<UserReward>, v: VisitedLocation, cands: seq<Attraction>)
    ensures RewardPass(ctx, r, [v], cands) == VisitPass(ctx, r, v, cands)
  {
    assert [v][..0] == [];
  }

  /** A first fill of an empty memo over attractions with distinct names records each one's own distance. */
  lemma FillEmptyCacheDistinct(loc: Location, catalog: seq<Attraction>, distance: (Location, Location) -> real)
    requires DistinctNames(catalog)
    ensures var cache := FillCache(map[], loc, catalog, distance);
            forall a :: a in catalog ==> a.attractionName in cache && cache[a.attractionName] == distance(loc, a.location)
  {
    var cache := FillCache(map[], loc, catalog, distance);
    forall a | a in catalog ensures a.attractionName in cache && cache[a.attractionName] == distance(loc, a.location) {
      var b :| b in catalog && b.attractionName == a.attractionName && cache[a.attractionName] == distance(loc, b.location);
      var i :| 0 <= i < |catalog| && catalog[i] == a;
      var j :| 0 <= j < |catalog| && catalog[j] == b;
      assert i == j;
    }
  }

  /**
   * One visit standing exactly on the first attraction, a fresh memo and an
   * empty reward list, every other attraction outside the default buffer:
   * exactly one reward, for that attraction.
   */
  lemma OneVisitAtAttractionEarnsOneReward(ctx: RewardContext, maxAttractionsToCheck: int,
                                           catalog: seq<Attraction>, v: VisitedLocation)
    requires catalog != [] && DistinctNames(catalog)
    requires ctx.proximityBuffer == DEFAULT_PROXIMITY_BUFFER
    requires v.location == catalog[0].location
    requires ctx.distance(v.location, v.location) == 0.0
    requires forall a :: a in catalog ==> ctx.distance(v.location, a.location) >= 0.0
    requires forall i :: 1 <= i < |catalog| ==> ctx.distance(catalog[i].location, v.location) > DEFAULT_PROXIMITY_BUFFER as real
    ensures var res := CalculateRewardsSpec(ctx, maxAttractionsToCheck, catalog, [v], RewardState(map[], []));
            && res.Success?
            && |res.value.userRewards| == 1
            && res.value.userRewards[0].attraction == catalog[0]
  {
    var cache := if |catalog| >= 2 then FillCache(map[], v.location, catalog, ctx.distance) else map[];
    if |catalog| >= 2 {
      FillEmptyCacheDistinct(v.location, catalog, ctx.distance);
    }
    var cands := AttractionsToCheck(catalog, cache, maxAttractionsToCheck);
    FirstCandidateIsLeast(catalog, cache, maxAttractionsToCheck);
    SingleVisitPass(ctx, [], v, cands);
    OnlyFirstEligible(ctx, catalog, cands, v);
  }

  lemma FirstCandidateIsLeast(catalog: seq<Attraction>, cache: map<string, real>, maxAttractionsToCheck: int)
    requires catalog != []
    requires forall a :: a in catalog ==> CachedKey(cache)(catalog[0]) <= CachedKey(cache)(a)
    ensures AttractionsToCheck(catalog, cache, maxAttractionsToCheck) != []
    ensures AttractionsToCheck(catalog, cache, maxAttractionsToCheck)[0] == catalog[0]
  {
    SortByKeepsLeastFirst(catalog, CachedKey(cache));
  }

  /** Exactly one reward when the first candidate is the only eligible attraction. */
  lemma OnlyFirstEligible(ctx: RewardContext, catalog: seq<Attraction>, cands: seq<Attraction>, v: VisitedLocation)
    requires catalog != [] && DistinctNames(catalog)
    requires cands != [] && cands[0] == catalog[0]
    requires forall a :: a in cands ==> a in catalog
    requires Eligible(ctx, v, catalog[0])
    requires forall i :: 1 <= i < |catalog| ==> !Eligible(ctx, v, catalog[i])
    ensures var res := VisitPass(ctx, [], v, cands);
            |res| == 1 && res[0].attraction == catalog[0]
  {
    var a0 := catalog[0];
    var res := VisitPass(ctx, [], v, cands);
    VisitPassSound(ctx, [], v, cands, [v], cands);
    VisitPassComplete(ctx, [], v, cands);
    assert AlreadyRewarded(res, a0.attractionId);
    forall k | 0 <= k < |res| ensures res[k].attraction == a0 {
      var a := res[k].attraction;
      var i :| 0 <= i < |catalog| && catalog[i] == a;
      assert i == 0;
    }
    SoundKeepsUnique(ctx, [], res, [v], cands);
    UniqueRewardIdsCount(res);
    assert RewardedIds(res) == {a0.attractionId} by {
      var k :| 0 <= k < |res| && res[k].attraction.attractionId == a0.attractionId;
      assert res[k] in res;
    }
  }

  /**
   * With every attraction within the buffer of the only visit and as many
   * candidates as attractions, a fresh user earns one reward per attraction.
   */
  lemma NearAllAttractionsRewardsWholeCatalog(ctx: RewardContext, catalog: seq<Attraction>,
                                              state: RewardState, v: VisitedLocation)
    requires DistinctIds(catalog)
    requires state.userRewards == []
    requires forall a :: a in catalog ==> Eligible(ctx, v, a)
    ensures var res := CalculateRewardsSpec(ctx, |catalog|, catalog, [v], state);
            res.Success? && |res.value.userRewards| == |catalog|
  {
    var res := CalculateRewardsSpec(ctx, |catalog|, catalog, [v], state).value;
    var cands := AttractionsToCheck(catalog, res.distanceCache, |catalog|);
    WholeCatalogIsChecked(catalog, res.distanceCache);
    SingleVisitPass(ctx, [], v, cands);
    AllEligibleAllRewarded(ctx, catalog, cands, v);
  }

  /** Asking for as many candidates as attractions checks every attraction. */
  lemma WholeCatalogIsChecked(catalog: seq<Attraction>, cache: map<string, real>)
    ensures forall a :: a in catalog ==> a in AttractionsToCheck(catalog, cache, |catalog|)
  {
    var t := SortBy(catalog, CachedKey(cache));
    assert AttractionsToCheck(catalog, cache, |catalog|) == t[..|catalog|] == t;
    forall a | a in catalog ensures a in t {
      assert a in multiset(catalog);
    }
  }

  lemma AllEligibleAllRewarded(ctx: RewardContext, catalog: seq<Attraction>, cands: seq<Attraction>, v: VisitedLocation)
    requires DistinctIds(catalog)
    requires forall a :: a in catalog ==> a in cands
    requires forall a :: a in cands ==> a in catalog
    requires forall a :: a in catalog ==> Eligible(ctx, v, a)
    ensures |VisitPass(ctx, [], v, cands)| == |catalog|
  {
    var rewards := VisitPass(ctx, [], v, cands);
    VisitPassSound(ctx, [], v, cands, [v], cands);
    VisitPassComplete(ctx, [], v, cands);
    SoundKeepsUnique(ctx, [], rewards, [v], cands);
    UniqueRewardIdsCount(rewards);
    DistinctIdsCount(catalog);
    forall id | id in RewardedIds(rewards) ensures id in AttractionIds(catalog) {
      var r :| r in rewards && r.attraction.attractionId == id;
      var k :| 0 <= k < |rewards| && rewards[k] == r;
      assert r.attraction in catalog;
    }
    forall id | id in AttractionIds(catalog) ensures id in RewardedIds(rewards) {
      var a :| a in catalog && a.attractionId == id;
      assert AlreadyRewarded(rewards, id);
      var k :| 0 <= k < |rewards| && rewards[k].attraction.attractionId == id;
      assert rewards[k] in rewards;
    }
    assert RewardedIds(rewards) == AttractionIds(catalog);
  }
}
