# Emergency response unit registry

A Dafny model of the responder pool of a Monte-Carlo emergency-dispatch simulator.
The pool is the set of emergency response units. Each unit stands at a grid location and holds
a number of response teams, fixed at creation by its size class: small 3, medium 5, large 7.

The original program keeps this state in class-level variables of `EmergencyUnit`:
the list of all units and a "wait for teams to be available" flag.
Here that state is an explicit `Registry` object.
Every `Unit` keeps a reference to the registry it was created in.

- `emergency_unit.dfy`, module `EmergencyUnit`:
  - the size table and the parsing of size names;
  - the `Unit` class (location, available capacity; dispatch, relieve, availability check);
  - the `Registry` class (units, wait flag; construction of a unit with the duplicate-location
    scan, reset);
  - the lemmas about distinct locations and about the availability split.
- `doctests.dfy`, module `EmergencyUnitExamples`:
  the documented examples of the class, replayed on a fresh registry and proved from the
  contracts alone, plus the dispatch-then-relieve round trip.
- `wrappers.dfy`, module `Wrappers`: `Option` and `Result`.

Decisions on points where the code admits more than one reading (the model follows the code):

- `CheckTeamAvailability` returns "nothing taken" whenever the capacity is zero **or negative**,
  and then the full requirement remains.
  The usual rule is taken = min(required, capacity), remaining = max(0, required - capacity),
  with "nothing taken" only at capacity zero.
  The two agree for capacity >= 0 and a non-negative requirement
  (`AvailabilityIsPoolFormula` proves that the code matches that rule for any non-negative
  requirement once a non-positive capacity counts as zero).
- The capacity table is the code's 3/5/7 (small/medium/large), kept as the one canonical mapping.
- `DispatchTeams` has no lower-bound check and `RelieveResponseTeams` has no clamp to the
  nominal size. Both are modelled as written, on unbounded integers, as Python's are.
- A unit's location is never reassigned by the code, so it is a `const` field.

## Model

| member | source | states |
|---|---|---|
| `EmergencyUnit.ParseSize` | EmergencyUnit.py:15 | a size name is accepted exactly when it is one of the table's names (the result names it back); any other name is the missing-key failure |
| `EmergencyUnit.Unit.constructor` | EmergencyUnit.py:14-15 | a new unit stands at the given location with the capacity of its size class (3, 5 or 7) |
| `EmergencyUnit.Unit.RelieveResponseTeams` | EmergencyUnit.py:21-34 | capacity grows by exactly the relieved count, with no clamp; the registry's wait flag becomes false; nothing else changes |
| `EmergencyUnit.Unit.DispatchTeams` | EmergencyUnit.py:36-48 | capacity shrinks by exactly the dispatched count, with no lower bound; nothing else changes |
| `EmergencyUnit.Unit.CheckTeamAvailability` | EmergencyUnit.py:50-68 | reads the unit without changing it; a team is taken iff the capacity is positive; taken plus remaining is the requirement; when taken, taken = min(requirement, capacity) and remaining >= 0; otherwise nothing is taken |
| `EmergencyUnit.AvailabilityIsPoolFormula` | EmergencyUnit.py:63-68 | for a non-negative requirement, taken = min(requirement, max(capacity, 0)), remaining = max(0, requirement - max(capacity, 0)), taken >= 0 |
| `EmergencyUnit.DispatchTakenKeepsCapacity` | EmergencyUnit.py:63-68 | dispatching what the split took keeps a non-negative capacity within [0, capacity], and empties it whenever some requirement remains |
| `EmergencyUnit.Registry.constructor` | EmergencyUnit.py:4-5 | a registry starts with no units, the wait flag false, and its invariant (distinct locations, every unit belongs to it) holding |
| `EmergencyUnit.Registry.CheckCoordinates` | EmergencyUnit.py:70-86 | the scan returns true iff no registered unit stands at the location |
| `EmergencyUnit.Registry.Register` | EmergencyUnit.py:8-19 | an unknown size fails with the registry unchanged; an occupied location fails with the registry unchanged; otherwise exactly one fresh unit, at that location with its size's capacity, is appended at the end, belonging to this registry; the invariant (distinct locations, every unit belongs to this registry) is preserved |
| `EmergencyUnit.Registry.Clear` | EmergencyUnit.py:88-95 | the registry is empty and the wait flag false |
| `EmergencyUnit.AppendFreePreservesDistinct` | EmergencyUnit.py:16-19 | appending a unit at a location no unit occupies keeps the locations pairwise distinct |
| `EmergencyUnit.LocationsBound` | EmergencyUnit.py:16-19 | a list of units never occupies more locations than it has units |
| `EmergencyUnit.DistinctLocationsCount` | EmergencyUnit.py:16-19 | the locations are pairwise distinct if and only if the number of occupied locations equals the number of units |
| `EmergencyUnitExamples.RelieveExample` | EmergencyUnit.py:28-31 | a medium unit relieved of one team has capacity 6, and the wait flag is false |
| `EmergencyUnitExamples.DispatchExample` | EmergencyUnit.py:43-46 | a medium unit that dispatches one team has capacity 4 |
| `EmergencyUnitExamples.CheckTeamAvailabilityExample` | EmergencyUnit.py:57-61 | a medium unit asked for 2 and then 3 teams answers (0, true, 2) and (0, true, 3) |
| `EmergencyUnitExamples.DuplicateLocationExample` | EmergencyUnit.py:75-79 | a second unit at (2, 2) fails with a duplicate-location error and the registry keeps one unit |
| `EmergencyUnitExamples.UnknownSizeExample` | EmergencyUnit.py:15 | a size name outside the table fails and no unit is registered |
| `EmergencyUnitExamples.RelieveRegisteredUnit` | EmergencyUnit.py:33-34 | relieving any unit of a registry clears that registry's one shared wait flag, and grows that unit's capacity by n |
| `EmergencyUnitExamples.DispatchThenRelieve` | EmergencyUnit.py:33-48 | dispatching n teams and then relieving n restores the unit's capacity and leaves the wait flag false |

## Left out

- The simulation driver in main.py (configuration file parsing, Poisson probabilities in floating point, random trials, one thread per emergency, running averages): I/O, randomness, concurrency and floating point. main.py is not part of this model.
- Emergency.py and CityConfiguration.py hold only signatures and docstrings with no bodies. The travel graph, shortest paths, incident sampling and the allocation loop are therefore not part of this model.
- The wait flag is modelled only as a boolean that relieving and resetting clear; its use as a signal between concurrently resolving emergencies is concurrency and is not modelled.
- The text of the duplicate-location error message is not modelled; the error carries the location instead.
- In the original, a unit object is built before the duplicate check and then dropped when the check fails. The model builds it too, but the object is unreachable afterwards and no contract mentions it.
- Python accepts any tuple as a location and any value as a count; the model fixes locations to integer pairs and counts to integers.
