/** The decisions of the HTTP handlers (cmd/httpd/main.go), over a store and
    a cache held as maps. */
module Handlers {
  import opened Wrappers
  import opened Unter

  /** kindFromString: the inverse of KindString on the two defined kinds.
      Go pairs the error with Kind 0. */
  function KindFromString(s: string): (r: Result<Kind, string>)
    ensures r.Success? ==> (r.value == Shared || r.value == Private) && KindString(r.value) == s
    ensures r.Failure? <==> s != "shared" && s != "private"
    ensures r.Failure? ==> r.error == "unknown kind: " + s
  {
    if s == KindString(Shared) then Success(Shared)
    else if s == KindString(Private) then Success(Private)
    else Failure("unknown kind: " + s)
  }

  /** The labels read back as the kinds that wrote them. */
  lemma KindRoundTrip(k: Kind)
    requires k == Shared || k == Private
    ensures KindFromString(KindString(k)) == Success(k)
  {
  }

  /** The text printed for any other kind, the zero kind included, is no label. */
  lemma OtherKindRejected(k: Kind)
    requires k != Shared && k != Private
    ensures KindFromString(KindString(k)).Failure?
  {
    OtherKindLabel(k);
  }

  /** db.Ride: a row of the store; the kind is kept as its label. */
  datatype StoredRide = StoredRide(
    id: string,
    driver: string,
    kind: string,
    start: Time,
    end: Time,
    distance: real)

  /** GetResponse: the JSON shape of a ride, end omitted while unset. */
  datatype GetResponse = GetResponse(
    id: string,
    driver: string,
    kind: string,
    start: Time,
    end: Option<Time>,
    distance: real)

  /** The row a response describes. */
  function StoredOf(resp: GetResponse): StoredRide {
    StoredRide(resp.id, resp.driver, resp.kind, resp.start,
      if resp.end.Some? then resp.end.value else 0, resp.distance)
  }

  /** How getHandler builds its response from a row: End is present exactly
      when the row's end is not the zero time, and nothing is lost. */
  function ResponseOf(rd: StoredRide): (resp: GetResponse)
    ensures resp.end.Some? <==> rd.end != 0
    ensures StoredOf(resp) == rd
  {
    GetResponse(rd.id, rd.driver, rd.kind, rd.start,
      if rd.end == 0 then None else Some(rd.end), rd.distance)
  }

  const StatusOK := 200
  const StatusBadRequest := 400
  const StatusNotFound := 404
  const StatusInternalServerError := 500

  datatype Body =
    | RideJson(ride: GetResponse)                       // a GetResponse, as JSON
    | Text(message: string)                             // http.Error's text
    | ActionJson(id: string, action: string)            // {"id": ..., "action": ...}
    | HealthJson(db: Option<string>, cache: Option<string>)  // {"db": ..., "cache": ...}, None is null

  datatype Reply = Reply(status: int, body: Body)

  /** What db.Get reports: the row, ErrNotFound, or another error. */
  datatype StoreResult = Found(ride: StoredRide) | StoreNotFound | StoreError(message: string)

  /** What cache.Get reports: the cached value, ErrNotFound, or another error. */
  datatype CacheResult = Hit(data: GetResponse) | CacheMiss | CacheError(message: string)

  /** The Server's store and cache. A fault, while set, makes every call to
      that collaborator fail with its text, as an outage does. */
  class Server {
    var rides: map<string, StoredRide>
    var dbFault: Option<string>
    var cache: map<string, GetResponse>
    var cacheFault: Option<string>

    /** Every row is stored under its own ID. */
    ghost predicate Valid()
      reads this
    {
      forall id :: id in rides ==> rides[id].id == id
    }

    constructor ()
      ensures Valid()
      ensures rides == map[] && cache == map[] && dbFault == None && cacheFault == None
    {
      rides, cache := map[], map[];
      dbFault, cacheFault := None, None;
    }

    /** db.Get: a missing row is ErrNotFound, never a generic error. */
    function StoreGet(id: string): (r: StoreResult)
      reads this
      ensures r.Found? <==> dbFault.None? && id in rides
      ensures r.Found? ==> r.ride == rides[id]
      ensures r.StoreNotFound? <==> dbFault.None? && id !in rides
    {
      if dbFault.Some? then StoreError(dbFault.value)
      else if id in rides then Found(rides[id])
      else StoreNotFound
    }

    /** cache.Get: a missing key is ErrNotFound. */
    function CacheGet(key: string): (r: CacheResult)
      reads this
      ensures r.Hit? <==> cacheFault.None? && key in cache
      ensures r.Hit? ==> r.data == cache[key]
      ensures r.CacheMiss? <==> cacheFault.None? && key !in cache
    {
      if cacheFault.Some? then CacheError(cacheFault.value)
      else if key in cache then Hit(cache[key])
      else CacheMiss
    }

    /** healthHandler: 500 exactly when the store or the cache check fails,
        and each failing check's text in its field. */
    method Health() returns (reply: Reply)
      ensures reply.status == StatusInternalServerError <==> dbFault.Some? || cacheFault.Some?
      ensures reply.status == StatusOK <==> dbFault.None? && cacheFault.None?
      ensures reply.body == HealthJson(dbFault, cacheFault)
    {
      var ok := true;
      var dbField: Option<string> := None;
      var cacheField: Option<string> := None;
      if dbFault.Some? {
        dbField := Some(dbFault.value);
        ok := false;
      }
      if cacheFault.Some? {
        cacheField := Some(cacheFault.value);
        ok := false;
      }
      var status := if ok then StatusOK else StatusInternalServerError;
      reply := Reply(status, HealthJson(dbField, cacheField));
    }

    /** startHandler on a decoded request. newID and now stand for NewID()
        and time.Now(); rideValid for the outcome of Ride.Validate. */
    method Start(driver: string, kind: string, newID: string, now: Time, rideValid: bool) returns (reply: Reply)
      requires Valid()
      requires newID !in rides
      modifies this`rides
      ensures Valid()
      ensures KindFromString(kind).Failure? ==>
        reply == Reply(StatusBadRequest, Text("bad kind")) && rides == old(rides)
      ensures KindFromString(kind).Success? && !rideValid ==>
        reply == Reply(StatusBadRequest, Text("bad request")) && rides == old(rides)
      ensures KindFromString(kind).Success? && rideValid && dbFault.Some? ==>
        reply == Reply(StatusInternalServerError, Text("can't insert")) && rides == old(rides)
      ensures KindFromString(kind).Success? && rideValid && dbFault.None? ==>
        reply == Reply(StatusOK, ActionJson(newID, "start"))
        && rides == old(rides)[newID := StoredRide(newID, driver, kind, now, 0, 0.0)]
        && |rides| == |old(rides)| + 1
    {
      var k := KindFromString(kind);
      if k.Failure? {
        return Reply(StatusBadRequest, Text("bad kind"));
      }
      var rd := Ride(newID, driver, k.value, now, 0, 0.0);
      if !rideValid {
        return Reply(StatusBadRequest, Text("bad request"));
      }
      var row := StoredRide(rd.id, rd.driver, KindString(rd.kind), rd.start, 0, 0.0);
      var err := Insert(row);
      if err.Some? {
        return Reply(StatusInternalServerError, Text("can't insert"));
      }
      return Reply(StatusOK, ActionJson(rd.id, "start"));
    }

    /** db.Add: inserts a row, unless the store is failing. */
    method Insert(row: StoredRide) returns (err: Option<string>)
      requires Valid()
      modifies this`rides
      ensures Valid()
      ensures err == dbFault
      ensures rides == if dbFault.Some? then old(rides) else old(rides)[row.id := row]
    {
      if dbFault.Some? {
        return dbFault;
      }
      rides := rides[row.id := row];
      return None;
    }

    /** db.Update: replaces the row with the same ID, unless the write
        fails; failure is the store's answer to this one write. */
    method Update(row: StoredRide, failure: Option<string>) returns (err: Option<string>)
      requires Valid()
      modifies this`rides
      ensures Valid()
      ensures err == failure
      ensures rides == if failure.None? && row.id in old(rides) then old(rides)[row.id := row] else old(rides)
    {
      if failure.Some? {
        return failure;
      }
      if row.id in rides {
        rides := rides[row.id := row];
      }
      return None;
    }

    /** endHandler on a decoded request: a read-modify-write of the row that
        sets only its distance and end. updateFailure is the store's answer
        to the write, which the handler does not look at: the reply is 200
        whether or not the row changed. The cache is left alone. */
    method End(id: string, distance: real, now: Time, updateFailure: Option<string>) returns (reply: Reply)
      requires Valid()
      modifies this`rides
      ensures Valid()
      ensures distance == 0.0 ==>
        reply == Reply(StatusBadRequest, Text("missing distance")) && rides == old(rides)
      ensures distance != 0.0 && !old(StoreGet(id)).Found? ==>
        reply == Reply(StatusNotFound, Text("not found")) && rides == old(rides)
      ensures distance != 0.0 && old(StoreGet(id)).Found? ==>
        reply == Reply(StatusOK, ActionJson(id, "end"))
        && rides == if updateFailure.Some? then old(rides)
                    else old(rides)[id := old(rides[id]).(distance := distance, end := now)]
    {
      if distance == 0.0 {
        return Reply(StatusBadRequest, Text("missing distance"));
      }
      var got := StoreGet(id);
      if !got.Found? {
        return Reply(StatusNotFound, Text("not found"));
      }
      var rd := got.ride;
      rd := rd.(distance := distance);
      rd := rd.(end := now);
      var _ := Update(rd, updateFailure);
      return Reply(StatusOK, ActionJson(id, "end"));
    }

    /** getHandler: cache first; on any cache failure the store, with
        not-found and other errors kept apart; a row read from the store
        is written back to the cache, unless the cache is failing. */
    method Get(id: string) returns (reply: Reply)
      modifies this`cache
      ensures old(CacheGet(id)).Hit? ==>
        reply == Reply(StatusOK, RideJson(old(CacheGet(id)).data)) && cache == old(cache)
      ensures !old(CacheGet(id)).Hit? && StoreGet(id).StoreNotFound? ==>
        reply == Reply(StatusNotFound, Text("not found")) && cache == old(cache)
      ensures !old(CacheGet(id)).Hit? && StoreGet(id).StoreError? ==>
        reply == Reply(StatusInternalServerError, Text("can't get")) && cache == old(cache)
      ensures !old(CacheGet(id)).Hit? && StoreGet(id).Found? ==>
        reply == Reply(StatusOK, RideJson(ResponseOf(StoreGet(id).ride)))
        && cache == if cacheFault.None? then old(cache)[id := ResponseOf(StoreGet(id).ride)] else old(cache)
    {
      var cached := CacheGet(id);
      if cached.Hit? {
        return Reply(StatusOK, RideJson(cached.data));
      }
      var got := StoreGet(id);
      if got.StoreNotFound? {
        return Reply(StatusNotFound, Text("not found"));
      } else if got.StoreError? {
        return Reply(StatusInternalServerError, Text("can't get"));
      }
      var rd := got.ride;
      var resp := ResponseOf(rd);
      if cacheFault.None? {
        cache := cache[id := resp];
      }
      return Reply(StatusOK, RideJson(resp));
    }

    /** A read that found the ride in the store fills the cache, so the next
        read is served from the cache, even with the store down by then. */
    method GetTwice(id: string, outage: string) returns (first: Reply, second: Reply)
      modifies this`cache, this`dbFault
      ensures old(cacheFault).None? && first.status == StatusOK ==> second == first
      ensures dbFault == Some(outage)
    {
      first := Get(id);
      dbFault := Some(outage);
      second := Get(id);
    }
  }
}
