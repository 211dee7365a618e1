# TourGuide location tracking and reward calculation, in Dafny

This project models the two services at the core of TourGuide. The model runs sequentially: there are no thread pools or futures.

- **`RewardsService`** calculates the rewards for one user:
  - It builds a candidate set: the attraction catalog sorted on a memoised distance, cut to `max(1, maxAttractionsToCheck)` attractions.
  - It walks every (visited location, candidate) pair. It appends a `UserReward` when the visit is within the proximity buffer and the attraction id is not yet rewarded.
  - Points are the reward provider's answer, floored at 1.
  - It also has the configuration setters, the user-list replacement, and a fixed 200-unit "nearby" test.
- **`TourGuideService`** holds the users and tracks their locations:
  - a user registry keyed by name (insert-if-absent, and a lookup that trims the name);
  - a location cache keyed by user id in front of the geolocation provider;
  - the five nearest attractions;
  - the reward-point total handed to the trip pricer.

Files and modules:

- `domain.dfy` (`Domain`): the value types and the `User` class. It also holds `GpsUtil`, the geolocation provider seen as an oracle: a fixed catalog, a location function indexed by request number, and a request counter.
- `selection.dfy` (`Selection`): a stable sort on a real key and `TakeNearest`, its prefix. Together they are the stream pipeline `sorted(comparingDouble(..)).limit(k)`.
- `reward_rules.dfy` (`RewardRules`): what one reward calculation computes, as functions. It holds the proofs about it: append-only, sound, complete, idempotent, unique ids, and the test scenarios.
- `rewards_service.dfy` (`Rewards`): the `RewardsService` class. Its loops are proved to compute `CalculateRewardsSpec`.
- `tour_guide_service.dfy` (`TourGuide`): `String.trim`, the point total, and the `TourGuideService` class.

External collaborators are parameters of the model:

- Distance is a `(Location, Location) -> real` field.
- Reward points are a `(attractionId, userId) -> int` field.
- The trip pricer is a function field.
- The geolocation provider is the `GpsUtil` oracle.

Where a scenario needs `dist(x, x) == 0`, the lemma takes it as a hypothesis.

The model follows the code where the design description of the system differs from it:

- The distance memo is keyed by the attraction's **name** only. So the first distance computed for a name is reused for every later user and location (`FillCacheFixpoint`).
- Candidates are chosen by a full stable sort, not a bounded heap.
- Reward points are not memoised: the provider is asked each time a reward is granted.

The tracking code calls two methods that the reward service does not define: `calculateRewardsAsync(user, attractions)`, and `calculateRewardsForAllUsers` in a performance test. The model treats the call on a cache miss as "start the calculation for this user". The call is queued on `pendingRewards`, and `RunPendingRewardCalculation` runs it later, so tracking never waits for rewards.

## Model

| member | source | states |
|---|---|---|
| `Rewards.NewRewardsService` | TourGuide/src/main/java/com/openclassrooms/tourguide/service/RewardsService.java:46-54 | construction fails with IllegalState exactly when the executor is null or shut down; otherwise the service starts with buffer 10, ten candidates, an empty memo and no users |
| `Rewards.RewardsService.SetMaxAttractionsToCheck` | TourGuide/src/main/java/com/openclassrooms/tourguide/service/RewardsService.java:56-58 | the candidate count becomes the argument, unvalidated (negative values later act as 1) |
| `Rewards.RewardsService.SetAllUsers` | TourGuide/src/main/java/com/openclassrooms/tourguide/service/RewardsService.java:65-75 | a null or empty list throws IllegalState and leaves the stored list as it was; otherwise the stored list's contents equal the argument |
| `Rewards.RewardsService.SetProximityBuffer` | TourGuide/src/main/java/com/openclassrooms/tourguide/service/RewardsService.java:77-79 | the buffer becomes the argument |
| `Rewards.RewardsService.SetDefaultProximityBuffer` | TourGuide/src/main/java/com/openclassrooms/tourguide/service/RewardsService.java:81-83 | the buffer is restored to the default 10 |
| `Rewards.RewardsService.CalculateRewards` | TourGuide/src/main/java/com/openclassrooms/tourguide/service/RewardsService.java:85-112 | the new memo and reward list are exactly what `CalculateRewardsSpec` gives for the old ones; on the thrown path (empty history, two attractions or more) nothing changes |
| `Rewards.RewardsService.MemoiseDistances` | TourGuide/src/main/java/com/openclassrooms/tourguide/service/RewardsService.java:94-96 | the sort's key extraction over the catalog leaves the memo as compute-if-absent from the last visit for each attraction |
| `Rewards.RewardsService.RewardVisits` | TourGuide/src/main/java/com/openclassrooms/tourguide/service/RewardsService.java:100-111 | the nested loops leave the user's rewards equal to the reward walk over (visit, candidate) pairs in source order |
| `Rewards.RewardsService.CachedDistance` | TourGuide/src/main/java/com/openclassrooms/tourguide/service/RewardsService.java:128-131 | a memoised name returns its stored value and changes nothing, whatever the location; a new name is measured from the given location and stored |
| `Rewards.RewardsService.IsWithinAttractionProximity` | TourGuide/src/main/java/com/openclassrooms/tourguide/service/RewardsService.java:133-135 | true exactly when the attraction's distance to the location is at most 200, independent of the buffer |
| `Rewards.RewardsService.NearAttraction` | TourGuide/src/main/java/com/openclassrooms/tourguide/service/RewardsService.java:137-139 | true exactly when the attraction's distance to the visit is at most the current buffer (inclusive), measured without the memo |
| `Rewards.RewardsService.GetRewardPoints` | TourGuide/src/main/java/com/openclassrooms/tourguide/service/RewardsService.java:141-143 | the provider's points for (attraction, user), never below 1, equal to the provider's answer when that is positive |
| `RewardRules.RewardPoints` | TourGuide/src/main/java/com/openclassrooms/tourguide/service/RewardsService.java:142 | `max(providerPoints, 1)`: at least 1, and the provider's answer whenever it is at least 1 |
| `RewardRules.CandidateCount` | TourGuide/src/main/java/com/openclassrooms/tourguide/service/RewardsService.java:97 | at least one candidate is always checked, and exactly the setting when it is positive |
| `RewardRules.AttractionWithinProximityOfItself` | TourGuide/src/test/java/com/openclassrooms/tourguide/unitaire/TestRewardsService.java:70-71 | when distance is 0 on the diagonal, an attraction is within viewing proximity of its own position |
| `RewardRules.FillCache` | TourGuide/src/main/java/com/openclassrooms/tourguide/service/RewardsService.java:128-131 | the memo only gains keys (exactly the catalog's names), keeps every old value, and each new name holds the distance from the location to an attraction of that name |
| `RewardRules.FillCacheFixpoint` | TourGuide/src/main/java/com/openclassrooms/tourguide/service/RewardsService.java:128-131 | once every name is memoised, filling again from any location changes nothing: values are never overwritten |
| `RewardRules.AttractionsToCheck` | TourGuide/src/main/java/com/openclassrooms/tourguide/service/RewardsService.java:94-98 | exactly `min(max(1, maxAttractionsToCheck), \|catalog\|)` catalog attractions, in non-decreasing memoised distance, with no excluded attraction closer than an included one |
| `Selection.TakeNearest` | TourGuide/src/main/java/com/openclassrooms/tourguide/service/RewardsService.java:94-98 | the first `k` of the sorted catalog: `min(k, \|s\|)` elements, a sub-multiset of the input, ordered by key, and every element left behind has a key at least that of every element kept |
| `Selection.SortBySorted` | TourGuide/src/main/java/com/openclassrooms/tourguide/service/RewardsService.java:95-96 | the stable sort returns its input in non-decreasing key order (its own contract gives the same length and multiset) |
| `Selection.SortByKeepsLeastFirst` | TourGuide/src/main/java/com/openclassrooms/tourguide/service/RewardsService.java:95-96 | stability: a first element that no other beats stays first after the sort |
| `RewardRules.Step` | TourGuide/src/main/java/com/openclassrooms/tourguide/service/RewardsService.java:102-108 | the inner loop body keeps the list as a prefix and appends at most one reward, and appends exactly when the visit is within the buffer and the attraction id is not yet rewarded |
| `RewardRules.VisitPass` | TourGuide/src/main/java/com/openclassrooms/tourguide/service/RewardsService.java:101-110 | one visit against the candidates keeps the list as a prefix and appends at most one reward per candidate |
| `RewardRules.RewardPass` | TourGuide/src/main/java/com/openclassrooms/tourguide/service/RewardsService.java:100-111 | the nested loops keep the old rewards as a prefix of the new list: nothing is removed or reordered |
| `RewardRules.RewardPassSound` | TourGuide/src/main/java/com/openclassrooms/tourguide/service/RewardsService.java:100-111 | the walk only appends; each appended reward is for a candidate within the buffer of a visit, carries the floored points, and its attraction id was absent when it was appended |
| `RewardRules.RewardPassComplete` | TourGuide/src/main/java/com/openclassrooms/tourguide/service/RewardsService.java:100-111 | after the walk, every (visit, candidate) pair within the buffer has its attraction id among the rewards |
| `RewardRules.RewardPassFixpoint` | TourGuide/src/main/java/com/openclassrooms/tourguide/service/RewardsService.java:103-105 | when every eligible pair's attraction is already rewarded, the walk appends nothing |
| `RewardRules.RewardPassIdempotent` | TourGuide/src/main/java/com/openclassrooms/tourguide/service/RewardsService.java:100-111 | walking the same visits and candidates a second time adds no reward |
| `RewardRules.SoundKeepsUnique` | TourGuide/src/main/java/com/openclassrooms/tourguide/service/RewardsService.java:103-107 | because a reward is appended only when its id is absent, attraction ids that were unique stay unique |
| `RewardRules.CalculateRewardsSpec` | TourGuide/src/main/java/com/openclassrooms/tourguide/service/RewardsService.java:85-112 | one call: it throws IndexOutOfBounds exactly when the history is empty and the catalog has at least two attractions (only then does the sort ask for the last visit); otherwise the old rewards are kept as a prefix of the new list |
| `RewardRules.CalculateRewardsAppendOnly` | TourGuide/src/main/java/com/openclassrooms/tourguide/service/RewardsService.java:91-111 | a successful calculation keeps the old rewards as a prefix, appends only sound rewards drawn from the candidate set, keeps ids unique, and keeps every memo entry |
| `RewardRules.CalculateRewardsIdempotent` | TourGuide/src/main/java/com/openclassrooms/tourguide/service/RewardsService.java:85-111 | calculating again with unchanged visits and catalog changes neither the memo nor the rewards |
| `RewardRules.OneVisitAtAttractionEarnsOneReward` | TourGuide/src/test/java/com/openclassrooms/tourguide/unitaire/TestRewardsService.java:54-61 | one visit exactly at the first attraction, default buffer, fresh memo and user, every other attraction out of range: exactly one reward, for that attraction |
| `RewardRules.NearAllAttractionsRewardsWholeCatalog` | TourGuide/src/test/java/com/openclassrooms/tourguide/unitaire/TestRewardsService.java:80-93 | with as many candidates as attractions and every attraction within the buffer of the only visit, a fresh user earns one reward per attraction |
| `TourGuide.TourGuideService.constructor` | TourGuide/src/main/java/com/openclassrooms/tourguide/service/TourGuideService.java:76-92 | the service starts with the generated users filed by name, an empty location cache and no user list |
| `TourGuide.TourGuideService.InitializeInternalUsers` | TourGuide/src/main/java/com/openclassrooms/tourguide/service/TourGuideService.java:286-294 | each generated user is `put` under its name, a later one replacing an earlier one, and users stay filed under their own names |
| `TourGuide.PutAll` | TourGuide/src/main/java/com/openclassrooms/tourguide/service/TourGuideService.java:288-293 | the keys become the old keys plus the users' names, untouched keys keep their users, and every user is filed under its own name |
| `TourGuide.TourGuideService.SetAllUsers` | TourGuide/src/main/java/com/openclassrooms/tourguide/service/TourGuideService.java:107-115 | null throws IllegalArgument, empty throws IllegalState, neither changes anything; otherwise the list becomes a copy of the argument and the user map is untouched |
| `TourGuide.TourGuideService.GetUser` | TourGuide/src/main/java/com/openclassrooms/tourguide/service/TourGuideService.java:218-224 | succeeds exactly when the trimmed name is registered, returning the user of that name; otherwise IllegalArgument, never a null result |
| `TourGuide.Trim` | TourGuide/src/main/java/com/openclassrooms/tourguide/service/TourGuideService.java:219 | the result is a slice of the name with only blank characters (up to U+0020) cut at both ends, and has no blank at either end |
| `TourGuide.TrimIdentity` | TourGuide/src/main/java/com/openclassrooms/tourguide/service/TourGuideService.java:219 | trimming leaves a name unchanged exactly when it has no blank at either end |
| `TourGuide.TrimIdempotent` | TourGuide/src/main/java/com/openclassrooms/tourguide/service/TourGuideService.java:219 | trimming twice is trimming once |
| `TourGuide.UntrimmedNameNeverLookedUp` | TourGuide/src/main/java/com/openclassrooms/tourguide/service/TourGuideService.java:219-249 | a user filed under a name with a blank at either end can never be returned by `getUser`, whatever the query |
| `TourGuide.TourGuideService.GetAllUsers` | TourGuide/src/main/java/com/openclassrooms/tourguide/service/TourGuideService.java:235-237 | a fresh list holding exactly the registered users, each once, as many as the map has entries |
| `TourGuide.TourGuideService.AddUser` | TourGuide/src/main/java/com/openclassrooms/tourguide/service/TourGuideService.java:248-250 | insert-if-absent by user name: an existing entry is never replaced, and a newly added user with a trimmed name is what `GetUser` of that name returns |
| `TourGuide.TourGuideService.TrackUserLocation` | TourGuide/src/main/java/com/openclassrooms/tourguide/service/TourGuideService.java:154-168 | hit: the cached location, no provider request, history and cache unchanged; miss: exactly one request, its answer appended to the history, cached under the user id, one reward calculation queued; either way the location belongs to the user |
| `TourGuide.TourGuideService.GetUserLocation` | TourGuide/src/main/java/com/openclassrooms/tourguide/service/TourGuideService.java:138-140 | a non-empty history gives its last visit with no tracking and no request; an empty one gives the tracked location: on a cache hit the cached visit, with no request and the cache and queue unchanged; on a miss the provider's answer, which becomes the whole history and the cache entry, with one reward calculation queued |
| `TourGuide.TourGuideService.ExpireLocation` | TourGuide/src/main/java/com/openclassrooms/tourguide/service/TourGuideService.java:56-59 | the cache may drop a user's entry at any time, which only removes that entry |
| `TourGuide.TourGuideService.RunPendingRewardCalculation` | TourGuide/src/main/java/com/openclassrooms/tourguide/service/TourGuideService.java:164 | the oldest queued calculation runs as `CalculateRewardsSpec` for that user and leaves the queue; of the user, only the reward list may change |
| `TourGuide.NearestAttractions` | TourGuide/src/main/java/com/openclassrooms/tourguide/service/TourGuideService.java:199-205 | `min(5, \|catalog\|)` catalog attractions in non-decreasing distance from the visit, with no excluded attraction closer than an included one |
| `TourGuide.TourGuideService.GetNearByAttractions` | TourGuide/src/main/java/com/openclassrooms/tourguide/service/TourGuideService.java:199-205 | `min(5, \|catalog\|)` attractions of the provider's catalog, nearest first by the service's distance from the visit, with no attraction left out closer than one returned |
| `TourGuide.TourGuideService.GetTripDeals` | TourGuide/src/main/java/com/openclassrooms/tourguide/service/TourGuideService.java:264-274 | the pricer is asked with the user's preferences and the 32-bit sum of the reward points, and its answer is stored on the user and returned |
| `TourGuide.ToInt32` | TourGuide/src/main/java/com/openclassrooms/tourguide/service/TourGuideService.java:265 | the `int` sum is in 32-bit range, congruent to the exact sum modulo 2^32, and equal to it when the exact sum fits |
| `TourGuide.TotalRewardPoints` | TourGuide/src/main/java/com/openclassrooms/tourguide/service/TourGuideService.java:265 | the exact sum of a reward list's points, never negative when no reward is |
| `TourGuide.TotalRewardPointsAppend` | TourGuide/src/main/java/com/openclassrooms/tourguide/service/TourGuideService.java:265 | the point total of two reward lists joined is the sum of their totals |
| `TourGuide.TotalAtLeastCount` | TourGuide/src/main/java/com/openclassrooms/tourguide/service/TourGuideService.java:265 | rewards worth at least one point each total at least their number |
| `TourGuide.CalculateRewardsRaisesTotal` | TourGuide/src/main/java/com/openclassrooms/tourguide/service/RewardsService.java:106-107 | a reward calculation raises the user's point total by at least one point per reward it adds |

## Left out

- The body of `getDistance` (RewardsService.java:145-156), the spherical law of cosines on doubles, is replaced by the distance oracle. Distances are exact reals, so floating-point rounding is not modelled.
- Concurrency is not modelled: `calculateRewardsAsync`, its semaphore and the executor (RewardsService.java:42-43, 114-126), `trackAllUsersLocations` (TourGuideService.java:180-187), `shutdownExecutor`, `shutdown`, and the tracker's shutdown hook. The thread pool appears only as the null or shut-down check at construction.
- The cache's size bound and five-minute expiry (TourGuideService.java:56-59) are not modelled. They appear only as `ExpireLocation`, which may drop an entry at any time.
- Random generation of internal users and their histories (TourGuideService.java:296-346) is not modelled; the generated users are a constructor parameter. The debug logging (RewardsService.java:87-89) is not modelled either.
- `Tracker.java` is not part of this model. It is a scheduled background thread with a stop flag.
- The HTTP controller, the DTO, and the Spring wiring (`TourGuideModule`, `ExecutorConfig`) are not part of this model.
- `User`, `UserReward`, GpsUtil, RewardCentral and TripPricer are not part of this model's source. The model uses the behaviour they are relied on for:
  - `addToVisitedLocations` and `addUserReward` append;
  - `getLastVisitedLocation` is the last visit and throws on an empty history;
  - `getUserLocation` answers with a location for the given user id;
  - the provider calls always succeed, so provider failures are not modelled.
- `getUserRewards` (TourGuideService.java:124-126) is a plain accessor of the user's list and has no separate member.
- `Rewards.RewardsService.MemoiseDistances` fills the memo in catalog order. The Java sort computes keys in its own comparison order. The two differ only when two catalog attractions share a name: then which one's distance is memoised may differ.
- The catalog is one fixed `GpsUtil.attractions` list, the same on every `getAttractions()` call. Reward deduplication by attraction id, and `CalculateRewardsIdempotent`, rest on the provider returning the same attractions with the same ids each time.
- `trackUserLocation` also requests the catalog (TourGuideService.java:163). The model treats the catalog as fixed and counts only location requests.
- Java `int` fields (buffer, candidate count, points) are unbounded integers. No operation in the core adds them together, except the point total, which is wrapped to 32 bits explicitly.
- Null arguments other than the user lists are not modelled: a null user, or a null name given to `getUser`, throws NullPointerException in the source.
