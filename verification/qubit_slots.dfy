/** The slot vector both test backends keep: one `int` per handle ever
    handed out, holding 0, 1 or RELEASED. A handle names the slot at the
    index `static_cast<int>` recovers from it. Every check the backends
    make with REQUIRE is an observable violation here, never a silent
    no-op and never a precondition. */
module QubitSlots {
  import opened MachineInts

  /** The marker of a released qubit or result slot. */
  const RELEASED: int := -1

  /** The REQUIRE that failed. */
  datatype Violation =
    | NegativeId(id: int)
    | IdOutOfRange(id: int, size: nat)
    | SlotReleased(id: int)

  /** Either the value of an operation whose checks all passed, or the
      first check that failed (state is left as it was). */
  datatype Checked<T> = Ok(value: T) | Violated(violation: Violation)

  /** The handle names an existing slot. */
  predicate InRange(slots: seq<int>, handle: Handle) {
    0 <= ToInt32(handle) < |slots|
  }

  /** The handle names an existing slot that is not released. */
  predicate Live(slots: seq<int>, handle: Handle) {
    InRange(slots, handle) && slots[ToInt32(handle)] != RELEASED
  }

  /** Every slot holds a classical bit or the release marker. */
  predicate WellFormed(slots: seq<int>) {
    forall i :: 0 <= i < |slots| ==> slots[i] == RELEASED || slots[i] == 0 || slots[i] == 1
  }

  /** GetQubitId / GetResultId: narrow the handle and require it to index
      an existing slot. */
  function SlotId(slots: seq<int>, handle: Handle): (r: Checked<nat>)
    ensures r.Ok? <==> InRange(slots, handle)
    ensures r.Ok? ==> r.value < |slots| && (r.value - handle) % TWO_32 == 0
    ensures r.Ok? ==> r.value == ToInt32(handle)
    ensures ToInt32(handle) < 0 ==> r == Violated(NegativeId(ToInt32(handle)))
    ensures 0 <= ToInt32(handle) && !InRange(slots, handle) ==> r == Violated(IdOutOfRange(ToInt32(handle), |slots|))
  {
    var id := ToInt32(handle);
    if id < 0 then Violated(NegativeId(id))
    else if id >= |slots| then Violated(IdOutOfRange(id, |slots|))
    else Ok(id)
  }

  /** SlotId followed by the "must be alive" REQUIRE. */
  function LiveSlotId(slots: seq<int>, handle: Handle): (r: Checked<nat>)
    ensures r.Ok? <==> Live(slots, handle)
    ensures r.Ok? ==> r.value < |slots| && slots[r.value] != RELEASED
    ensures r.Ok? ==> SlotId(slots, handle) == Ok(r.value)
    ensures InRange(slots, handle) && !Live(slots, handle) ==> r == Violated(SlotReleased(ToInt32(handle)))
  {
    match SlotId(slots, handle)
    case Violated(v) => Violated(v)
    case Ok(id) => if slots[id] == RELEASED then Violated(SlotReleased(id)) else Ok(id)
  }

  /** AllocateQubit: append a slot in state 0; its handle is its index. */
  function Allocate(slots: seq<int>): (r: (seq<int>, Handle))
    ensures |r.0| == |slots| + 1 && r.0[..|slots|] == slots && r.0[|slots|] == 0
    ensures r.1 == |slots|
    ensures WellFormed(slots) ==> WellFormed(r.0)
    ensures |slots| < TWO_31 ==> Live(r.0, r.1) && SlotId(r.0, r.1) == Ok(|slots|)
  {
    (slots + [0], |slots|)
  }

  /** ReleaseQubit: a live slot becomes RELEASED; nothing else changes. */
  function Release(slots: seq<int>, handle: Handle): (r: Checked<seq<int>>)
    ensures r.Ok? <==> Live(slots, handle)
    ensures r.Ok? ==> |r.value| == |slots| && !Live(r.value, handle)
    ensures r.Ok? ==> forall i :: 0 <= i < |slots| && i != ToInt32(handle) ==> r.value[i] == slots[i]
    ensures r.Ok? && WellFormed(slots) ==> WellFormed(r.value)
  {
    match LiveSlotId(slots, handle)
    case Violated(v) => Violated(v)
    case Ok(id) => Ok(slots[id := RELEASED])
  }

  /** X: a live slot holding s now holds 1 - s; nothing else changes. */
  function Flip(slots: seq<int>, handle: Handle): (r: Checked<seq<int>>)
    ensures r.Ok? <==> Live(slots, handle)
    ensures r.Ok? ==> |r.value| == |slots| && r.value[ToInt32(handle)] + slots[ToInt32(handle)] == 1
    ensures r.Ok? ==> forall i :: 0 <= i < |slots| && i != ToInt32(handle) ==> r.value[i] == slots[i]
    ensures r.Ok? && WellFormed(slots) ==> WellFormed(r.value) && Live(r.value, handle)
  {
    match LiveSlotId(slots, handle)
    case Violated(v) => Violated(v)
    case Ok(id) => Ok(slots[id := 1 - slots[id]])
  }

  /** Releasing a handle twice is reported, and the second attempt names
      the released slot. */
  lemma ReleaseTwiceViolates(slots: seq<int>, handle: Handle)
    requires Live(slots, handle)
    ensures Release(slots, handle).Ok?
    ensures Release(Release(slots, handle).value, handle) == Violated(SlotReleased(ToInt32(handle)))
  {
  }

  /** X twice on a live slot of a well-formed vector restores the vector. */
  lemma FlipInvolutive(slots: seq<int>, handle: Handle)
    requires WellFormed(slots) && Live(slots, handle)
    ensures Flip(slots, handle).Ok?
    ensures Flip(Flip(slots, handle).value, handle) == Ok(slots)
  {
    var once := Flip(slots, handle).value;
    var id := ToInt32(handle);
    assert once[id := 1 - once[id]] == slots;
  }

  /** Every operation on a released slot is reported rather than acted on. */
  lemma ReleasedSlotRejectsEverything(slots: seq<int>, handle: Handle)
    requires InRange(slots, handle) && slots[ToInt32(handle)] == RELEASED
    ensures Release(slots, handle) == Violated(SlotReleased(ToInt32(handle)))
    ensures Flip(slots, handle) == Violated(SlotReleased(ToInt32(handle)))
  {
  }
}
