/** The value entities of the transit core: feeds, trips, schedule rows and board rows. */
module Models {

  datatype Option<+T> = None | Some(value: T)

  /** The tunable constants of the service. */
  datatype Settings = Settings(
    gtfsTtl: int,          // seconds an arrivals board lives without a refresh
    tripTtl: int,          // seconds the metadata of a trip lives
    windowPast: int,       // how far back a refresh purges
    fuzzyWindow: int,      // strict bound on a nearest-time match
    recentlyPassed: int)   // how long a departed train stays on a board
  {
    /** The relations between the constants that the theorems rely on. */
    predicate Sane() {
      0 < recentlyPassed <= windowPast && 0 < gtfsTtl && 0 < tripTtl
    }
  }

  const DEFAULTS := Settings(300, 3600, 300, 900, 60)

  /** The shipped constants, in minutes and hours, meet those relations, and boards look back less far than
      a refresh purges. */
  lemma DefaultsAreSane()
    ensures DEFAULTS.Sane() && DEFAULTS.recentlyPassed < DEFAULTS.windowPast
    ensures DEFAULTS.gtfsTtl == 5 * 60 && DEFAULTS.tripTtl == 60 * 60 && DEFAULTS.windowPast == 5 * 60
    ensures DEFAULTS.fuzzyWindow == 15 * 60 && DEFAULTS.recentlyPassed == 60
  {
  }

  // ----- real-time feed -----

  datatype StopTimeUpdate = StopTimeUpdate(stopId: string, arrival: Option<int>, departure: Option<int>)

  /** A missing list of stop times and an empty one are both falsy in the source, so both are `[]`. */
  datatype TripUpdate = TripUpdate(tripId: string, routeId: string, stopTimes: seq<StopTimeUpdate>)

  /** An entity matters only through its trip update, which may be absent. */
  datatype Feed = Feed(entities: seq<Option<TripUpdate>>)

  // ----- schedule and board -----

  datatype ScheduledTrip = ScheduledTrip(
    tripId: string, routeId: string, headsign: Option<string>, direction: string, arrival: int)

  /** One (trip, time) pair read from the live board of a platform, with the platform's letter. */
  datatype LiveEntry = LiveEntry(tripId: string, time: int, direction: string)

  datatype Status = Live | LiveAdded | Scheduled

  datatype Arrival = Arrival(
    tripId: string, routeId: string, headsign: Option<string>, direction: string,
    arrivalTime: int, isRealtime: bool, status: Status)

  datatype TripMetadata = TripMetadata(routeId: string, headsign: Option<string>)
}
