/** `GatingReprobe` as an object: its fields and the sections of code that run under its lock,
    each proved to do to the abstract table what the run model's step does. */
module GatingReprobe {
  import opened Reprobe

  /** `_Flight`. `id` is its identity, which the table uses in place of the reference. */
  class FlightObject {
    const name: Name
    ghost const id: nat
    var waiters: seq<Waiter>

    constructor (name: Name, ghost id: nat)
      ensures this.name == name && this.id == id && waiters == []
    {
      this.name := name;
      this.id := id;
      waiters := [];
    }
  }

  method RemoveWaiter(ws: seq<Waiter>, w: Waiter) returns (kept: seq<Waiter>)
    ensures kept == Without(ws, w)
  {
    kept := [];
    for i := 0 to |ws|
      invariant kept + Without(ws[i..], w) == Without(ws, w)
    {
      if ws[i] != w {
        kept := kept + [ws[i]];
      }
    }
  }

  class Harness {
    const minInterval: real
    var lastStarted: map<Name, real>
    var flights: map<Name, FlightObject>
    var outageLogged: set<Name>
    ghost var made: seq<FlightObject>

    ghost predicate Valid()
      reads this, made
    {
      && (forall i :: 0 <= i < |made| ==> made[i].id == i)
      && (forall n :: n in flights ==> flights[n] in made)
    }

    ghost function Made(): (r: seq<Flight>)
      reads this, made
      ensures |r| == |made|
      ensures forall i :: 0 <= i < |r| ==> r[i] == Flight(made[i].name, made[i].waiters)
    {
      seq(|made|, i requires 0 <= i < |made| reads this, made => Flight(made[i].name, made[i].waiters))
    }

    ghost function View(): (t: Table)
      requires Valid()
      reads this, made
      ensures WellFormed(t)
    {
      Table(lastStarted, map n | n in flights :: flights[n].id, Made(), outageLogged)
    }

    constructor (minInterval: real)
      ensures Valid() && View() == EMPTY_TABLE && this.minInterval == minInterval
    {
      this.minInterval := minInterval;
      lastStarted, flights, outageLogged := map[], map[], {};
      made := [];
    }

    method Open(name: Name, now: real) returns (flight: FlightObject)
      requires Valid()
      modifies this`lastStarted, this`flights, this`made
      ensures Valid() && made == old(made) + [flight] && fresh(flight)
      ensures View() == Table(old(lastStarted)[name := now], old(View()).flights[name := |old(made)|],
                              old(View()).made + [Flight(name, [])], old(outageLogged))
    {
      lastStarted := lastStarted[name := now];
      flight := new FlightObject(name, |made|);
      flights := flights[name := flight];
      made := made + [flight];
      assert View().flights == old(View()).flights[name := |old(made)|];
      assert Made() == old(Made()) + [Flight(name, [])];
    }

    method Sit(flight: FlightObject, waiter: Waiter)
      requires Valid() && flight in made
      modifies flight
      ensures Valid()
      ensures var before := old(View());
        View() == before.(made := before.made[flight.id :=
          Flight(flight.name, before.made[flight.id].waiters + [waiter])])
    {
      flight.waiters := flight.waiters + [waiter];
      assert View().flights == old(View()).flights;
      assert View().made == old(View()).made[flight.id := Flight(flight.name, flight.waiters)];
    }

    /** The locked section of `_join`. */
    method JoinLocked(name: Name, now: real, waiter: Waiter) returns (flight: FlightObject?, start: bool)
      requires Valid()
      modifies this`lastStarted, this`flights, this`made, made
      ensures Valid()
      ensures var (table, outcome) := Join(old(View()), name, now, minInterval, waiter);
        && View() == table
        && (flight == null <==> outcome == Refused)
        && (flight != null ==> flight in made && outcome == Seated(flight.id, start))
    {
      ghost var before := View();
      start := name !in flights;
      if !start {
        flight := flights[name];
      } else if name in lastStarted && now - lastStarted[name] < minInterval {
        return null, start;
      } else {
        flight := Open(name, now);
        assert (before.made + [Flight(name, [])])[|before.made| := Flight(name, [waiter])]
            == before.made + [Flight(name, [waiter])];
      }
      Sit(flight, waiter);
      assert start ==> [] + [waiter] == [waiter];
    }

    ghost function Seats(joined: seq<(FlightObject, Waiter)>): (r: seq<Seat>)
      ensures |r| == |joined|
      ensures forall k :: 0 <= k < |r| ==> r[k] == Seat(joined[k].0.id, joined[k].1)
    {
      seq(|joined|, k requires 0 <= k < |joined| => Seat(joined[k].0.id, joined[k].1))
    }

    /** The locked section of `_leave`. */
    method LeaveLocked(joined: seq<(FlightObject, Waiter)>)
      requires Valid() && forall j :: j in joined ==> j.0 in made
      modifies made
      ensures Valid()
      ensures View() == old(View()).(made := LeaveAll(old(View()).made, Seats(joined)))
    {
      ghost var seats := Seats(joined);
      for k := 0 to |joined|
        invariant Valid()
        invariant LeaveAll(Made(), seats[k..]) == LeaveAll(old(Made()), seats)
      {
        var flight := joined[k].0;
        ghost var before := Made();
        var kept := RemoveWaiter(flight.waiters, joined[k].1);
        flight.waiters := kept;
        assert Made() == before[flight.id := Flight(flight.name, kept)];
      }
    }

    method TakeWaiters(flight: FlightObject) returns (waiters: seq<Waiter>)
      requires Valid() && flight in made
      modifies flight
      ensures Valid() && waiters == old(View()).made[flight.id].waiters
      ensures View() == old(View()).(made := old(View()).made[flight.id := Flight(flight.name, [])])
    {
      waiters, flight.waiters := flight.waiters, [];
      assert View().flights == old(View()).flights;
      assert View().made == old(View()).made[flight.id := Flight(flight.name, [])];
    }

    method FreeSlot(name: Name, flight: FlightObject)
      requires Valid() && flight in made
      modifies this`flights
      ensures Valid()
      ensures var before := old(View());
        View() == before.(flights := if name in before.flights && before.flights[name] == flight.id
                                     then before.flights - {name} else before.flights)
    {
      ghost var before := View();
      assert name in flights ==> (flights[name] == flight <==> before.flights[name] == flight.id);
      if name in flights && flights[name] == flight {
        flights := flights - {name};
        assert View().flights == before.flights - {name};
      }
      assert Made() == before.made;
    }

    /** The locked section of `_run`, which hands over the waiters to wake. */
    method ReleaseLocked(name: Name, flight: FlightObject) returns (waiters: seq<Waiter>)
      requires Valid() && flight in made && flight.name == name
      modifies this`flights, flight
      ensures Valid()
      ensures (View(), waiters) == Release(old(View()), flight.id)
    {
      waiters := TakeWaiters(flight);
      FreeSlot(name, flight);
    }

    /** The locked section of `_note_failed`; the caller writes the entry when told to. */
    method NoteFailedLocked(name: Name) returns (log: bool)
      requires Valid()
      modifies this`outageLogged
      ensures Valid()
      ensures View() == old(View()).(outage := old(outageLogged) + {name})
      ensures log <==> name !in old(outageLogged)
    {
      log := name !in outageLogged;
      outageLogged := outageLogged + {name};
      assert View().made == old(View()).made;
    }

    /** The locked section of `_note_recovered`. */
    method NoteRecoveredLocked(name: Name) returns (log: bool)
      requires Valid()
      modifies this`outageLogged
      ensures Valid()
      ensures View() == old(View()).(outage := old(outageLogged) - {name})
      ensures log <==> name in old(outageLogged)
    {
      log := name in outageLogged;
      outageLogged := outageLogged - {name};
      assert View().made == old(View()).made;
    }
  }
}
