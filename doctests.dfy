/**
  The documented examples of the emergency unit class, each replayed on a fresh
  registry and proved from the contracts of the registry and unit alone.
 */
module EmergencyUnitExamples {
  import opened Wrappers
  import opened EmergencyUnit

  /** A medium unit relieved of one team reports capacity 6 and clears the wait flag. */
  method RelieveExample() returns (capacity: int, waiting: bool)
    ensures capacity == 6 && !waiting
  {
    var registry := new Registry();
    var r := registry.Register("medium", Location(1, 3));
    if r.Failure? {
      assert false;
      return 0, true;
    }
    var unit := r.value;
    unit.RelieveResponseTeams(1);
    capacity, waiting := unit.availableCapacity, registry.waitForTeams;
  }

  /** A medium unit that dispatches one team reports capacity 4. */
  method DispatchExample() returns (capacity: int)
    ensures capacity == 4
  {
    var registry := new Registry();
    var r := registry.Register("medium", Location(1, 2));
    if r.Failure? {
      assert false;
      return 0;
    }
    var unit := r.value;
    unit.DispatchTeams(1);
    capacity := unit.availableCapacity;
  }

  /** A medium unit asked for 2 and then for 3 teams covers both in full and is unchanged by asking. */
  method CheckTeamAvailabilityExample() returns (first: Availability, second: Availability)
    ensures first == Availability(0, true, 2)
    ensures second == Availability(0, true, 3)
  {
    var registry := new Registry();
    var r := registry.Register("medium", Location(1, 1));
    if r.Failure? {
      assert false;
      return Availability(0, false, 0), Availability(0, false, 0);
    }
    var unit := r.value;
    first := unit.CheckTeamAvailability(2);
    second := unit.CheckTeamAvailability(3);
  }

  /** A second unit at an occupied location is refused and the registry keeps only the first. */
  method DuplicateLocationExample() returns (second: Result<Unit, RegistrationError>, count: nat)
    ensures second == Failure(DuplicateLocation(Location(2, 2)))
    ensures count == 1
  {
    var registry := new Registry();
    var first := registry.Register("medium", Location(2, 2));
    assert registry.units[0].location == Location(2, 2);
    second := registry.Register("medium", Location(2, 2));
    count := |registry.units|;
  }

  /** An unknown size is refused before the registry changes. */
  method UnknownSizeExample() returns (result: Result<Unit, RegistrationError>, count: nat)
    ensures result == Failure(UnknownSize("huge"))
    ensures count == 0
  {
    var registry := new Registry();
    result := registry.Register("huge", Location(0, 0));
    count := |registry.units|;
  }

  /** Dispatching n teams and then relieving n teams restores the unit's capacity. */
  method DispatchThenRelieve(unit: Unit, n: int)
    modifies unit, unit.registry`waitForTeams
    ensures unit.availableCapacity == old(unit.availableCapacity)
    ensures !unit.registry.waitForTeams
  {
    unit.DispatchTeams(n);
    unit.RelieveResponseTeams(n);
  }

  /** Relieving any registered unit clears the wait flag of the registry it is in. */
  method RelieveRegisteredUnit(registry: Registry, i: nat, n: int)
    requires registry.Valid() && i < |registry.units|
    modifies registry.units[i], registry`waitForTeams
    ensures !registry.waitForTeams
    ensures registry.units[i].availableCapacity == old(registry.units[i].availableCapacity) + n
  {
    registry.units[i].RelieveResponseTeams(n);
  }
}
