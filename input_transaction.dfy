/*
 * A model of the keyboard's per-keystroke InputTransaction record: the
 * immutable initial conditions of one key event and the shift-update
 * requirement that pipeline stages raise while the key is processed.
 */

/** Java's fixed-width integer types, as ranges of unbounded integers. */
module JavaInts {
  /** Java `int`. */
  newtype int32 = x: int | -0x8000_0000 <= x < 0x8000_0000

  /** Java `long`. */
  newtype int64 = x: int | -0x8000_0000_0000_0000 <= x < 0x8000_0000_0000_0000
}

module Event {
  import opened JavaInts

  // Urgency levels for recomputing the shift state, weakest first.
  // UPDATE_LATER dominates UPDATE_NOW: a deferred update must be redone
  // once the missing information arrives, so an immediate one is redundant.
  const ShiftNoUpdate: int32 := 0
  const ShiftUpdateNow: int32 := 1
  const ShiftUpdateLater: int32 := 2

  /** One of the three declared urgency levels. */
  predicate IsLevel(u: int32) {
    u == ShiftNoUpdate || u == ShiftUpdateNow || u == ShiftUpdateLater
  }

  /**
   * The keyboard settings in force for the keystroke. They belong to the
   * surrounding input method; the transaction only holds a reference.
   */
  class SettingsValues { }

  /** Java's `Math.max` on two `int`s. */
  function Max(a: int32, b: int32): (r: int32)
    ensures a <= r && b <= r
    ensures r == a || r == b
  {
    if a >= b then a else b
  }

  function DropLast<T>(s: seq<T>): seq<T>
    requires s != []
  {
    s[..|s| - 1]
  }

  /**
   * The level stored after starting at `init` and merging, in order, every
   * level of `levels` with `Max`: the largest of `init` and all of them.
   */
  function Merged(init: int32, levels: seq<int32>): (r: int32)
    ensures init <= r
    ensures forall i :: 0 <= i < |levels| ==> levels[i] <= r
    ensures r == init || r in levels
    decreases |levels|
  {
    if levels == [] then init
    else Max(Merged(init, DropLast(levels)), levels[|levels| - 1])
  }

  /** `r` is the maximum of `init` and every element of `levels`. */
  ghost predicate IsMaximum(init: int32, levels: seq<int32>, r: int32) {
    && init <= r
    && (forall i :: 0 <= i < |levels| ==> levels[i] <= r)
    && (r == init || r in levels)
  }

  /** The merged level is exactly the maximum, and nothing else is. */
  lemma MergedIsTheMaximum(init: int32, levels: seq<int32>, r: int32)
    ensures IsMaximum(init, levels, r) <==> r == Merged(init, levels)
  {
  }

  /** Merging two runs of requests one after the other. */
  lemma {:induction false} MergedAppend(init: int32, s: seq<int32>, t: seq<int32>)
    ensures Merged(init, s + t) == Merged(Merged(init, s), t)
    decreases |t|
  {
    if t == [] {
      assert s + t == s;
    } else {
      assert DropLast(s + t) == s + DropLast(t);
      MergedAppend(init, s, DropLast(t));
    }
  }

  /** Further requests never lower the merged level. */
  lemma {:induction false} MergedMonotone(init: int32, s: seq<int32>, t: seq<int32>)
    ensures Merged(init, s) <= Merged(init, s + t)
  {
    MergedAppend(init, s, t);
  }

  /** The merged level does not depend on the order of the requests. */
  lemma {:induction false} MergedOrderIndependent(init: int32, s: seq<int32>, t: seq<int32>)
    requires multiset(s) == multiset(t)
    ensures Merged(init, s) == Merged(init, t)
  {
    var a, b := Merged(init, s), Merged(init, t);
    forall x | x in s ensures x in t {
      assert x in multiset(s);
    }
    forall x | x in t ensures x in s {
      assert x in multiset(t);
    }
    assert forall i :: 0 <= i < |t| ==> t[i] in s;
    assert forall i :: 0 <= i < |s| ==> s[i] in t;
    if a != init {
      assert a in t;
      var j :| 0 <= j < |t| && t[j] == a;
    }
    if b != init {
      assert b in s;
      var j :| 0 <= j < |s| && s[j] == b;
    }
  }

  /** A request for SHIFT_NO_UPDATE, made at any point, changes nothing. */
  lemma {:induction false} NoUpdateIsIdentity(s: seq<int32>, t: seq<int32>)
    ensures Merged(ShiftNoUpdate, s + [ShiftNoUpdate] + t) == Merged(ShiftNoUpdate, s + t)
  {
    MergedAppend(ShiftNoUpdate, s + [ShiftNoUpdate], t);
    MergedAppend(ShiftNoUpdate, s, t);
    assert DropLast(s + [ShiftNoUpdate]) == s;
  }

  /** Repeating an earlier request later on, at any point, changes nothing. */
  lemma {:induction false} RepeatIsIdempotent(init: int32, s: seq<int32>, u: int32, t: seq<int32>)
    ensures Merged(init, s + [u] + t + [u]) == Merged(init, s + [u] + t)
  {
    var p := s + [u] + t;
    assert DropLast(p + [u]) == p;
    assert u in p;
  }

  /**
   * Once the stored level has reached SHIFT_UPDATE_LATER, later requests
   * with any of the declared levels leave it there.
   */
  lemma {:induction false} LaterAbsorbs(init: int32, s: seq<int32>, t: seq<int32>)
    requires Merged(init, s) == ShiftUpdateLater
    requires forall i :: 0 <= i < |t| ==> IsLevel(t[i])
    ensures Merged(init, s + t) == ShiftUpdateLater
  {
    MergedAppend(init, s, t);
  }

  /** Starting from SHIFT_NO_UPDATE, declared levels keep the result declared. */
  lemma MergedStaysALevel(levels: seq<int32>)
    requires forall i :: 0 <= i < |levels| ==> IsLevel(levels[i])
    ensures IsLevel(Merged(ShiftNoUpdate, levels))
  {
  }

  /** The state of one keystroke as it moves through the input pipeline. */
  class InputTransaction {
    // Initial conditions, fixed at construction.
    const settingsValues: SettingsValues?
    /** The code point the key inserts, or a (typically negative) action code. */
    const keyCode: int32
    /** Pressed coordinates, or a sentinel coordinate defined elsewhere. */
    const x: int32
    const y: int32
    const timestamp: int64
    const spaceState: int32
    const shiftState: int32

    // Output.
    var requiredShiftUpdate: int32
    /** Every level passed to RequireShiftUpdate so far, oldest first. */
    ghost var requests: seq<int32>

    ghost predicate Valid()
      reads this
    {
      requiredShiftUpdate == Merged(ShiftNoUpdate, requests)
    }

    constructor (settingsValues: SettingsValues?, keyCode: int32, x: int32, y: int32,
                 timestamp: int64, spaceState: int32, shiftState: int32)
      ensures Valid()
      ensures this.settingsValues == settingsValues && this.keyCode == keyCode
      ensures this.x == x && this.y == y && this.timestamp == timestamp
      ensures this.spaceState == spaceState && this.shiftState == shiftState
      ensures requests == [] && requiredShiftUpdate == ShiftNoUpdate
    {
      this.settingsValues := settingsValues;
      this.keyCode := keyCode;
      this.x := x;
      this.y := y;
      this.timestamp := timestamp;
      this.spaceState := spaceState;
      this.shiftState := shiftState;
      requiredShiftUpdate := ShiftNoUpdate;
      requests := [];
    }

    /** Raises the required shift update to at least `updateType`. */
    method RequireShiftUpdate(updateType: int32)
      requires Valid()
      modifies this`requiredShiftUpdate, this`requests
      ensures Valid()
      ensures requests == old(requests) + [updateType]
      ensures requiredShiftUpdate == Max(old(requiredShiftUpdate), updateType)
      ensures old(requiredShiftUpdate) <= requiredShiftUpdate
    {
      requiredShiftUpdate := Max(requiredShiftUpdate, updateType);
      requests := requests + [updateType];
      assert DropLast(requests) == old(requests);
    }

    /** The strongest level requested so far, SHIFT_NO_UPDATE if none. */
    method GetRequiredShiftUpdate() returns (r: int32)
      requires Valid()
      ensures r == requiredShiftUpdate
      ensures IsMaximum(ShiftNoUpdate, requests, r)
    {
      r := requiredShiftUpdate;
    }
  }

  /** A fresh transaction reports SHIFT_NO_UPDATE. */
  method FreshReportsNoUpdate(settings: SettingsValues?, keyCode: int32, x: int32, y: int32,
                              timestamp: int64, spaceState: int32, shiftState: int32)
    returns (r: int32)
    ensures r == ShiftNoUpdate
  {
    var t := new InputTransaction(settings, keyCode, x, y, timestamp, spaceState, shiftState);
    r := t.GetRequiredShiftUpdate();
  }

  /** UPDATE_NOW followed by NO_UPDATE leaves UPDATE_NOW. */
  method NowThenNoUpdate(settings: SettingsValues?, keyCode: int32, x: int32, y: int32,
                         timestamp: int64, spaceState: int32, shiftState: int32)
    returns (r: int32)
    ensures r == ShiftUpdateNow
  {
    var t := new InputTransaction(settings, keyCode, x, y, timestamp, spaceState, shiftState);
    t.RequireShiftUpdate(ShiftUpdateNow);
    t.RequireShiftUpdate(ShiftNoUpdate);
    r := t.GetRequiredShiftUpdate();
  }

  /** UPDATE_LATER followed by UPDATE_NOW leaves UPDATE_LATER. */
  method LaterThenNow(settings: SettingsValues?, keyCode: int32, x: int32, y: int32,
                      timestamp: int64, spaceState: int32, shiftState: int32)
    returns (r: int32)
    ensures r == ShiftUpdateLater
  {
    var t := new InputTransaction(settings, keyCode, x, y, timestamp, spaceState, shiftState);
    t.RequireShiftUpdate(ShiftUpdateLater);
    t.RequireShiftUpdate(ShiftUpdateNow);
    r := t.GetRequiredShiftUpdate();
  }

  /**
   * Requests change only the output: the initial conditions read back
   * after any request are those given to the constructor.
   */
  method InitialConditionsSurviveRequests(settings: SettingsValues?, keyCode: int32, x: int32,
                                          y: int32, timestamp: int64, spaceState: int32,
                                          shiftState: int32, u: int32)
    returns (t: InputTransaction)
    ensures t.settingsValues == settings && t.keyCode == keyCode && t.x == x && t.y == y
    ensures t.timestamp == timestamp && t.spaceState == spaceState && t.shiftState == shiftState
    ensures t.Valid() && t.requests == [u] && t.requiredShiftUpdate == Max(ShiftNoUpdate, u)
  {
    t := new InputTransaction(settings, keyCode, x, y, timestamp, spaceState, shiftState);
    t.RequireShiftUpdate(u);
  }
}
