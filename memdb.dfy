/** The in-memory ride table (cmd/httpd/db.go). */
module MemDb {
  import opened Wrappers
  import opened Unter

  datatype NotFound = NotFound(id: string)

  class DB {
    var rides: map<string, Ride>

    /** NewDB: an empty table. */
    constructor ()
      ensures rides == map[]
    {
      rides := map[];
    }

    /** Add stores r under its ID, replacing any ride already there. */
    method Add(r: Ride)
      modifies this
      ensures rides == old(rides)[r.id := r]
      ensures r.id in rides && rides[r.id] == r
      ensures forall id :: id != r.id ==> (id in rides <==> id in old(rides))
      ensures forall id :: id != r.id && id in rides ==> rides[id] == old(rides)[id]
    {
      rides := rides[r.id := r];
    }

    /** Get returns the ride stored under id, or the zero Ride and an error. */
    method Get(id: string) returns (r: Ride, err: Option<NotFound>)
      ensures id in rides ==> r == rides[id] && err == None
      ensures id !in rides ==> r == ZeroRide && err == Some(NotFound(id))
    {
      if id !in rides {
        return ZeroRide, Some(NotFound(id));
      }
      return rides[id], None;
    }
  }

  /** A Get right after an Add finds the ride just added, and a second Add
      under the same ID wins over an earlier one. */
  method AddThenGet(db: DB, earlier: Ride, r: Ride) returns (got: Ride, err: Option<NotFound>)
    requires earlier.id == r.id
    modifies db
    ensures got == r && err == None
    ensures db.rides == old(db.rides)[r.id := r]
  {
    db.Add(earlier);
    db.Add(r);
    got, err := db.Get(r.id);
  }
}
