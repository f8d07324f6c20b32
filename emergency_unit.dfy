/**
  The registry of emergency response units and their team capacity.

  The original program keeps all units in a class-level list and a class-level
  "wait for teams" flag; here that shared state is an explicit `Registry`
  object, and every `Unit` keeps a reference to the registry it was created in.
 */
module EmergencyUnit {
  import opened Wrappers

  /** A grid coordinate (row, column); two units are at the same place when both parts agree. */
  datatype Location = Location(row: int, col: int)

  /** The size class of a unit, named "small", "medium" or "large" by callers. */
  datatype Size = Small | Medium | Large

  function SizeName(s: Size): string
  {
    match s
    case Small => "small"
    case Medium => "medium"
    case Large => "large"
  }

  /** Number of teams a unit of each size starts with: small 3, medium 5, large 7. */
  function Capacity(s: Size): nat
  {
    match s
    case Small => 3
    case Medium => 5
    case Large => 7
  }

  /** Looks a size name up in the capacity table; `None` is the missing-key failure. */
  function ParseSize(name: string): (r: Option<Size>)
    ensures r.Some? ==> SizeName(r.value) == name
    ensures r.None? ==> forall s: Size :: SizeName(s) != name
  {
    if name == "small" then Some(Small)
    else if name == "medium" then Some(Medium)
    else if name == "large" then Some(Large)
    else None
  }

  /** Why constructing a unit fails: an unknown size name, or an occupied location. */
  datatype RegistrationError = UnknownSize(size: string) | DuplicateLocation(location: Location)

  /** The answer to "how many teams can this unit give": what is still needed,
      whether any team is taken, and how many are taken from this unit. */
  datatype Availability = Availability(remaining: int, anyTaken: bool, taken: int)

  function Min(a: int, b: int): int { if a <= b then a else b }

  function Max(a: int, b: int): int { if a <= b then b else a }

  /** No unit of `units` stands at `location`. */
  ghost predicate IsFree(units: seq<Unit>, location: Location)
  {
    forall i :: 0 <= i < |units| ==> units[i].location != location
  }

  /** The locations of `units` are pairwise distinct. */
  ghost predicate DistinctLocations(units: seq<Unit>)
  {
    forall i, j :: 0 <= i < j < |units| ==> units[i].location != units[j].location
  }

  ghost function Locations(units: seq<Unit>): set<Location>
  {
    set i | 0 <= i < |units| :: units[i].location
  }

  /** A list never occupies more locations than it has units. */
  lemma {:induction false} LocationsBound(units: seq<Unit>)
    ensures |Locations(units)| <= |units|
  {
    if units != [] {
      var init := units[..|units| - 1];
      LocationsBound(init);
      assert Locations(units) == Locations(init) + {units[|units| - 1].location};
    }
  }

  /** The locations are pairwise distinct exactly when the list holds one unit per occupied location. */
  lemma {:induction false} DistinctLocationsCount(units: seq<Unit>)
    ensures DistinctLocations(units) <==> |Locations(units)| == |units|
  {
    if units != [] {
      var init := units[..|units| - 1];
      var last := units[|units| - 1];
      assert Locations(units) == Locations(init) + {last.location};
      if DistinctLocations(units) {
        assert DistinctLocations(init);
        DistinctLocationsCount(init);
        assert last.location !in Locations(init);
      } else {
        var i, j :| 0 <= i < j < |units| && units[i].location == units[j].location;
        var rest := units[..j] + units[j + 1..];
        assert units[i] == rest[i];
        assert Locations(units) == Locations(rest) by {
          forall k | 0 <= k < |units|
            ensures units[k].location in Locations(rest)
          {
            if k < j {
              assert units[k] == rest[k];
            } else if k > j {
              assert units[k] == rest[k - 1];
            }
          }
        }
        LocationsBound(rest);
      }
    }
  }

  /** Appending a unit at a free location keeps the locations distinct. */
  lemma AppendFreePreservesDistinct(units: seq<Unit>, u: Unit)
    requires DistinctLocations(units) && IsFree(units, u.location)
    ensures DistinctLocations(units + [u])
  {
  }

  class Unit {
    const registry: Registry
    const location: Location
    var availableCapacity: int

    /** A unit of the given size at `location`, not yet in any list. */
    constructor (registry: Registry, location: Location, size: Size)
      ensures this.registry == registry && this.location == location
      ensures availableCapacity == Capacity(size)
    {
      this.registry := registry;
      this.location := location;
      availableCapacity := Capacity(size);
    }

    /** Returns `relievedUnits` teams to the unit (no upper clamp) and clears the wait flag. */
    method RelieveResponseTeams(relievedUnits: int)
      modifies this, registry`waitForTeams
      ensures availableCapacity == old(availableCapacity) + relievedUnits
      ensures !registry.waitForTeams
    {
      registry.waitForTeams := false;
      availableCapacity := availableCapacity + relievedUnits;
    }

    /** Takes `requiredUnits` teams from the unit; nothing stops the capacity going negative. */
    method DispatchTeams(requiredUnits: int)
      modifies this
      ensures availableCapacity == old(availableCapacity) - requiredUnits
    {
      availableCapacity := availableCapacity - requiredUnits;
    }

    /** Splits a team requirement against the current capacity, without changing the unit. */
    function CheckTeamAvailability(teamRequirement: int): (r: Availability)
      reads this
      ensures r.anyTaken <==> availableCapacity > 0
      ensures r.remaining + r.taken == teamRequirement
      ensures !r.anyTaken ==> r.taken == 0
      ensures r.anyTaken ==> r.taken == Min(teamRequirement, availableCapacity) && r.remaining >= 0
    {
      if availableCapacity <= 0 then
        Availability(teamRequirement, false, 0)
      else if availableCapacity <= teamRequirement then
        Availability(teamRequirement - availableCapacity, true, availableCapacity)
      else
        Availability(0, true, teamRequirement)
    }
  }

  /** For a non-negative requirement the split is the rule taken = min(required, capacity),
      remaining = max(0, required - capacity), once a non-positive capacity counts as zero. */
  lemma AvailabilityIsPoolFormula(u: Unit, teamRequirement: int)
    requires teamRequirement >= 0
    ensures var r := u.CheckTeamAvailability(teamRequirement);
      && r.taken == Min(teamRequirement, Max(u.availableCapacity, 0))
      && r.remaining == Max(0, teamRequirement - Max(u.availableCapacity, 0))
      && 0 <= r.taken
      && (r.anyTaken <==> r.taken > 0 || (teamRequirement == 0 && u.availableCapacity > 0))
  {
  }

  /** Dispatching what the split says was taken never drives a non-negative capacity below zero,
      and leaves it at zero exactly when the requirement was not fully met. */
  lemma DispatchTakenKeepsCapacity(u: Unit, teamRequirement: int)
    requires teamRequirement >= 0 && u.availableCapacity >= 0
    ensures var r := u.CheckTeamAvailability(teamRequirement);
      && 0 <= u.availableCapacity - r.taken <= u.availableCapacity
      && (r.remaining > 0 ==> u.availableCapacity - r.taken == 0)
  {
  }

  class Registry {
    var units: seq<Unit>
    var waitForTeams: bool

    /** No two registered units share a location, and every registered unit belongs to this registry. */
    ghost predicate Valid()
      reads this
    {
      && DistinctLocations(units)
      && forall i :: 0 <= i < |units| ==> units[i].registry == this
    }

    /** The empty registry with the wait flag cleared. */
    constructor ()
      ensures units == [] && !waitForTeams && Valid()
    {
      units := [];
      waitForTeams := false;
    }

    /** Scans the registry and tells whether no unit already stands at `location`. */
    method CheckCoordinates(location: Location) returns (flag: bool)
      ensures flag <==> IsFree(units, location)
    {
      flag := true;
      var i := 0;
      while i < |units|
        invariant 0 <= i <= |units|
        invariant forall k :: 0 <= k < i ==> units[k].location != location
        invariant flag
      {
        if units[i].location == location {
          flag := false;
          break;
        }
        i := i + 1;
      }
    }

    /** Constructs a unit of the named size at `location` and appends it to the registry,
        failing on an unknown size (before anything changes) or an occupied location. */
    method Register(size: string, location: Location) returns (result: Result<Unit, RegistrationError>)
      modifies this`units
      ensures ParseSize(size).None? ==> result == Failure(UnknownSize(size))
      ensures ParseSize(size).Some? && !IsFree(old(units), location) ==>
                result == Failure(DuplicateLocation(location))
      ensures result.Success? <==> ParseSize(size).Some? && IsFree(old(units), location)
      ensures result.Success? ==>
                && fresh(result.value)
                && result.value.registry == this
                && result.value.location == location
                && result.value.availableCapacity == Capacity(ParseSize(size).value)
                && units == old(units) + [result.value]
      ensures result.Failure? ==> units == old(units)
      ensures old(Valid()) ==> Valid()
    {
      var parsed := ParseSize(size);
      if parsed.None? {
        return Failure(UnknownSize(size));
      }
      var unit := new Unit(this, location, parsed.value);
      var free := CheckCoordinates(location);
      if free {
        if Valid() {
          AppendFreePreservesDistinct(units, unit);
        }
        units := units + [unit];
        result := Success(unit);
      } else {
        result := Failure(DuplicateLocation(location));
      }
    }

    /** Empties the registry and clears the wait flag, ready for the next run. */
    method Clear()
      modifies this
      ensures units == [] && !waitForTeams && Valid()
    {
      waitForTeams := false;
      units := [];
    }
  }
}
