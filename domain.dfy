/**
 * The entities shared by the reward and tracking services: identifiers,
 * coordinates, attractions, visited locations, rewards, the mutable `User`,
 * the geolocation provider seen as an oracle, and the error kinds the
 * services raise.
 */
module Domain {

  /** An opaque unique identifier (a UUID in the source). */
  datatype UUID = UUID(bits: nat)

  /** A coordinate in degrees; only the distance oracle ever looks inside it. */
  datatype Location = Location(latitude: real, longitude: real)

  /** An attraction of the provider's catalog: immutable, shared by every user. */
  datatype Attraction = Attraction(attractionId: UUID, attractionName: string, location: Location)

  /** One tracked position of a user; `timeVisited` is a logical time stamp. */
  datatype VisitedLocation = VisitedLocation(userId: UUID, location: Location, timeVisited: nat)

  /** A reward granted for having visited an attraction. */
  datatype UserReward = UserReward(visitedLocation: VisitedLocation, attraction: Attraction, rewardPoints: int)

  /** A priced trip offer returned by the trip pricer. */
  datatype Provider = Provider(name: string, price: real, tripId: UUID)

  /** Trip preferences the trip pricer is asked about. */
  datatype UserPreferences = UserPreferences(numberOfAdults: int, numberOfChildren: int, tripDuration: int)

  /** The exceptions the services throw. */
  datatype Error =
    | IllegalArgument(message: string)
    | IllegalState(message: string)
    | IndexOutOfBounds

  datatype Option<+T> = None | Some(value: T)

  /** A value, or the exception thrown instead of returning one. */
  datatype Result<+T> = Success(value: T) | Failure(error: Error)

  /** Normal completion of a void operation, or the exception it threw. */
  datatype Outcome = Pass | Fail(error: Error)

  /** The state of a thread pool handed to a service: `None` stands for null. */
  datatype ExecutorState = ExecutorState(isShutdown: bool)

  /**
   * A user: identity and preferences are fixed, the visit history and the
   * reward list only grow, and the last trip offers are replaced.
   */
  class User {
    const userId: UUID
    const userName: string
    var userPreferences: UserPreferences
    var visitedLocations: seq<VisitedLocation>
    var userRewards: seq<UserReward>
    var tripDeals: seq<Provider>

    constructor (userId: UUID, userName: string)
      ensures this.userId == userId && this.userName == userName
      ensures visitedLocations == [] && userRewards == [] && tripDeals == []
      ensures userPreferences == UserPreferences(1, 0, 1)
    {
      this.userId := userId;
      this.userName := userName;
      userPreferences := UserPreferences(1, 0, 1);
      visitedLocations := [];
      userRewards := [];
      tripDeals := [];
    }

    method AddToVisitedLocations(visitedLocation: VisitedLocation)
      modifies this`visitedLocations
      ensures visitedLocations == old(visitedLocations) + [visitedLocation]
    {
      visitedLocations := visitedLocations + [visitedLocation];
    }

    method AddUserReward(userReward: UserReward)
      modifies this`userRewards
      ensures userRewards == old(userRewards) + [userReward]
    {
      userRewards := userRewards + [userReward];
    }

    method SetTripDeals(tripDeals: seq<Provider>)
      modifies this`tripDeals
      ensures this.tripDeals == tripDeals
    {
      this.tripDeals := tripDeals;
    }

    /** The most recent visit; the source throws on an empty history, so callers check first. */
    function GetLastVisitedLocation(): (v: VisitedLocation)
      reads this
      requires visitedLocations != []
      ensures v in visitedLocations
      ensures v == visitedLocations[|visitedLocations| - 1]
    {
      visitedLocations[|visitedLocations| - 1]
    }
  }

  /**
   * The geolocation provider. Its catalog is fixed for the run; each location
   * request is answered by the oracle `locate`, consulted with the number of
   * requests made so far, so that two requests may give different answers.
   */
  class GpsUtil {
    const attractions: seq<Attraction>
    const locate: (UUID, nat) -> Location
    var calls: nat

    constructor (attractions: seq<Attraction>, locate: (UUID, nat) -> Location)
      ensures this.attractions == attractions && this.locate == locate && calls == 0
    {
      this.attractions := attractions;
      this.locate := locate;
      calls := 0;
    }

    /** One request to the provider: a fresh visited location for `userId`. */
    method GetUserLocation(userId: UUID) returns (v: VisitedLocation)
      modifies this`calls
      ensures calls == old(calls) + 1
      ensures v == VisitedLocation(userId, locate(userId, old(calls)), old(calls))
    {
      v := VisitedLocation(userId, locate(userId, calls), calls);
      calls := calls + 1;
    }
  }
}
