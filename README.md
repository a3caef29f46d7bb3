# InputTransaction — a verified model

This project models `InputTransaction`, the record that LatinIME's key-event
pipeline builds for a single keystroke. The record holds two things:

- the keystroke's initial conditions: the settings in force, the key code, the
  pressed coordinates, the timestamp, and the space state and shift state
  before the key;
- one output, the required shift update. Pipeline stages raise it with
  `requireShiftUpdate`, and the caller reads it back with
  `getRequiredShiftUpdate`.

The urgency levels are `SHIFT_NO_UPDATE = 0`, `SHIFT_UPDATE_NOW = 1` and
`SHIFT_UPDATE_LATER = 2`. Each request stores `Math.max(stored, request)`.
The stored level therefore never goes down, and it always equals the largest
of 0 and every level requested so far.

All of it is in `input_transaction.dfy`:

- Module `JavaInts` defines Java's `int` and `long` as the newtypes `int32`
  and `int64`.
- Module `Event` holds the level constants and `Max` (Java's `Math.max`). It
  also holds `Merged(init, levels)`, the level stored after starting at `init`
  and merging every level of `levels` in order, and the lemmas about
  `Merged`.
- The class `Event.InputTransaction` models the record:
  - Java's `final` fields become `const` fields, which the constructor
    assigns once and nothing can change afterwards.
  - `mRequiredShiftUpdate` becomes the mutable field `requiredShiftUpdate`.
  - A ghost field `requests` records every level passed in.
  - The invariant `Valid()` states `requiredShiftUpdate == Merged(0, requests)`.
- `RequireShiftUpdate` may modify only `requiredShiftUpdate` and `requests`.
  Because of that frame and the `const` fields, a request cannot change any
  initial condition.

`requireShiftUpdate` takes an unconstrained Java `int`. The model keeps that:
its parameter is any `int32`, with plain `max` semantics. It has no
`requires` that limits the argument to 0..2. The lemmas that need declared
levels (`LaterAbsorbs`, `MergedStaysALevel`) state that as their own
hypothesis.

## Model

| member | source | states |
|---|---|---|
| `Event.Max` | java/src/com/android/inputmethod/event/InputTransaction.java:61 | `Math.max`: the result is at least both arguments and is one of them |
| `Event.Merged` | java/src/com/android/inputmethod/event/InputTransaction.java:60-61 | the level after merging a run of requests into `init`: at least `init` and every request, and equal to `init` or to one of the requests |
| `Event.MergedIsTheMaximum` | java/src/com/android/inputmethod/event/InputTransaction.java:61 | a value is the merged level if and only if it is the maximum of the start value and all requests (both directions) |
| `Event.MergedAppend` | java/src/com/android/inputmethod/event/InputTransaction.java:60-62 | merging `s` and then `t` gives the same level as merging `t` into the level reached after `s` |
| `Event.MergedMonotone` | java/src/com/android/inputmethod/event/InputTransaction.java:61 | further requests never lower the stored level |
| `Event.MergedOrderIndependent` | java/src/com/android/inputmethod/event/InputTransaction.java:61 | two request histories with the same multiset of levels give the same stored level, so the order of pipeline stages does not matter |
| `Event.NoUpdateIsIdentity` | java/src/com/android/inputmethod/event/InputTransaction.java:46-61 | a `SHIFT_NO_UPDATE` request at any point of a history starting from `SHIFT_NO_UPDATE` leaves the final level unchanged |
| `Event.RepeatIsIdempotent` | java/src/com/android/inputmethod/event/InputTransaction.java:61 | repeating a level requested earlier, after any further requests, leaves the level unchanged |
| `Event.LaterAbsorbs` | java/src/com/android/inputmethod/event/InputTransaction.java:25-32 | once the level is `SHIFT_UPDATE_LATER`, any later requests with declared levels leave it at `SHIFT_UPDATE_LATER` |
| `Event.MergedStaysALevel` | java/src/com/android/inputmethod/event/InputTransaction.java:30-32 | starting from `SHIFT_NO_UPDATE`, requests drawn from the three declared levels keep the level one of the three |
| `Event.InputTransaction.constructor` | java/src/com/android/inputmethod/event/InputTransaction.java:46-58 | each initial-condition field equals its argument; the level is `SHIFT_NO_UPDATE`, with no requests yet |
| `Event.InputTransaction.RequireShiftUpdate` | java/src/com/android/inputmethod/event/InputTransaction.java:60-62 | the new level is the max of the old level and the argument and never lower than the old one; the request is appended to the history; the invariant `level == Merged(0, history)` is kept; only the level and the history may change |
| `Event.InputTransaction.GetRequiredShiftUpdate` | java/src/com/android/inputmethod/event/InputTransaction.java:63-65 | returns the stored level without changing anything; the result is the maximum of 0 and every level requested so far |
| `Event.FreshReportsNoUpdate` | java/src/com/android/inputmethod/event/InputTransaction.java:46-65 | a freshly constructed transaction reports `SHIFT_NO_UPDATE` |
| `Event.NowThenNoUpdate` | java/src/com/android/inputmethod/event/InputTransaction.java:60-65 | `SHIFT_UPDATE_NOW` then `SHIFT_NO_UPDATE` reads back `SHIFT_UPDATE_NOW` |
| `Event.LaterThenNow` | java/src/com/android/inputmethod/event/InputTransaction.java:25-32 | `SHIFT_UPDATE_LATER` then `SHIFT_UPDATE_NOW` reads back `SHIFT_UPDATE_LATER` |
| `Event.InitialConditionsSurviveRequests` | java/src/com/android/inputmethod/event/InputTransaction.java:35-62 | after construction and a request, every initial-condition field still equals its constructor argument |

## Left out

- `SettingsValues` (imported from `com.android.inputmethod.latin.settings`) is not part of this model. It is an empty class, and the record holds a nullable reference to it without looking inside.
- The coordinate sentinels (`Constants.*_COORDINATE`) and the encodings of the space state and shift state are defined outside this class. They are kept as plain `int32` values and not interpreted.
- The timestamp is stored as an opaque `int64`. Its relation to any clock is not modelled.
- The pipeline that builds and reads the transaction, and the shift-state recomputation itself, are not part of this model.
- Java's `private` on `mRequiredShiftUpdate` is not modelled, since Dafny has no member visibility. Callers in the model read the field only through `GetRequiredShiftUpdate`.
- Concurrency is not modelled. The record is used by one thread per keystroke.
