/**
 * The network-traffic setting codec of the status-bar settings screen.
 *
 * One persisted Java `int` (the screen's `mNetTrafficVal`) packs four
 * sub-fields, each selected by a mask read from resources: an "up" flag, a
 * "down" flag, a unit flag, and a refresh period kept from bit 16 upwards.
 * The functions below compute what the screen's Java computes; the lemmas
 * after each group state what those computations mean.
 */
module TrafficCodec {
  import opened Bits

  /** The four masks read from resources (`loadResources`). */
  datatype Masks = Masks(up: Word, down: Word, unit: Word, period: Word)

  // ---------------------------------------------------------------------
  // getBit and setBit
  // ---------------------------------------------------------------------

  /** `getBit`: the masked bits of `v` equal the mask. */
  predicate GetBit(v: Word, mask: Word) {
    And(v, mask) == mask
  }

  /** `setBit`: or the mask in, or and its complement in. */
  function SetBit(v: Word, mask: Word, state: bool): Word {
    if state then Or(v, mask) else And(v, Not(mask))
  }

  /** `getBit` is a whole-mask test: it holds exactly when every bit of the
      mask is a bit of the value. */
  lemma GetBitAllBits(v: Word, mask: Word)
    ensures GetBit(v, mask) <==> forall i :: 0 <= i < Width && mask[i] ==> v[i]
  {
    if forall i :: 0 <= i < Width && mask[i] ==> v[i] {
      assert And(v, mask) == mask;
    }
  }

  /** So it holds for every value when the mask is empty. */
  lemma GetBitEmptyMask(v: Word)
    ensures GetBit(v, Zero())
  {
    GetBitAllBits(v, Zero());
  }

  /** `setBit` gives every bit of the mask the value `state` and keeps every
      bit outside the mask. */
  lemma SetBitPerBit(v: Word, mask: Word, state: bool)
    ensures forall i :: 0 <= i < Width ==>
      SetBit(v, mask, state)[i] == if mask[i] then state else v[i]
  {
  }

  /** Reading a nonempty mask back after writing it gives what was written. */
  lemma GetSetBit(v: Word, mask: Word, state: bool)
    requires mask != Zero()
    ensures GetBit(SetBit(v, mask, state), mask) == state
  {
    var i :| 0 <= i < Width && mask[i] != Zero()[i];
    if state {
      assert And(SetBit(v, mask, state), mask) == mask;
    } else {
      assert And(SetBit(v, mask, state), mask)[i] != mask[i];
    }
  }

  /** Writing a mask twice with the same state is writing it once. */
  lemma SetBitIdempotent(v: Word, mask: Word, state: bool)
    ensures SetBit(SetBit(v, mask, state), mask, state) == SetBit(v, mask, state)
  {
  }

  /** Setting a mask and then clearing it leaves `v & ~mask`. */
  lemma SetThenClear(v: Word, mask: Word)
    ensures SetBit(SetBit(v, mask, true), mask, false) == And(v, Not(mask))
  {
  }

  /** `getBit` holds exactly when setting the mask would change nothing. */
  lemma GetBitIffSetIsNoOp(v: Word, mask: Word)
    ensures GetBit(v, mask) <==> SetBit(v, mask, true) == v
  {
    GetBitAllBits(v, mask);
    if GetBit(v, mask) {
      assert SetBit(v, mask, true) == v;
    }
    if SetBit(v, mask, true) == v {
      forall i | 0 <= i < Width && mask[i]
        ensures v[i]
      {
        assert SetBit(v, mask, true)[i];
      }
    }
  }

  // ---------------------------------------------------------------------
  // Reading the sub-fields (onCreate)
  // ---------------------------------------------------------------------

  /** The traffic-state key looked up among the state list's values:
      `mNetTrafficVal & (MASK_UP + MASK_DOWN)`, with Java's wrapping `+`. */
  function StateKey(v: Word, m: Masks): Word {
    And(v, Add(m.up, m.down))
  }

  /** With non-overlapping up and down masks the `+` of the key is `|`: the
      key is exactly the up and down bits of the value. */
  lemma StateKeyIsUpDownBits(v: Word, m: Masks)
    requires Disjoint(m.up, m.down)
    ensures StateKey(v, m) == And(v, Or(m.up, m.down))
  {
    DisjointAddIsOr(m.up, m.down);
  }

  /** The unit list's index: 1 when the unit mask is set, else 0. */
  function UnitIndex(v: Word, m: Masks): nat {
    if GetBit(v, m.unit) then 1 else 0
  }

  /** The unit index is 0 or 1, and it is 1 exactly when every bit of the
      unit mask is set in the word. */
  lemma UnitIndexReadsUnitBits(v: Word, m: Masks)
    ensures UnitIndex(v, m) <= 1
    ensures UnitIndex(v, m) == 1 <==> forall i :: 0 <= i < Width && m.unit[i] ==> v[i]
  {
    GetBitAllBits(v, m.unit);
  }

  /** The period looked up among the period list's values:
      `(mNetTrafficVal & MASK_PERIOD) >>> 16`. */
  function PeriodValue(v: Word, m: Masks): Word {
    ShiftRightUnsigned(And(v, m.period), 16)
  }

  /** The word is a Java `int` in 0 .. 65535: none of bits 16..31 is set. */
  predicate FitsIn16(p: Word) {
    forall i :: 16 <= i < Width ==> !p[i]
  }

  /** The period read back always lies in 0 .. 65535. */
  lemma PeriodValueFits(v: Word, m: Masks)
    ensures FitsIn16(PeriodValue(v, m))
  {
  }

  // ---------------------------------------------------------------------
  // Writing the sub-fields (onPreferenceChange)
  // ---------------------------------------------------------------------

  /** The traffic-state branch: the up mask is written with `getBit(intState,
      MASK_UP)`, then the down mask with `getBit(intState, MASK_DOWN)`. */
  function WithState(v: Word, m: Masks, intState: Word): Word {
    SetBit(SetBit(v, m.up, GetBit(intState, m.up)), m.down, GetBit(intState, m.down))
  }

  /** After the state branch every down bit is `intState`'s down test, every
      other up bit is its up test (where the masks overlap the later down
      write wins), and every bit outside both masks is unchanged. */
  lemma WithStatePerBit(v: Word, m: Masks, intState: Word)
    ensures forall i :: 0 <= i < Width ==>
      WithState(v, m, intState)[i]
        == if m.down[i] then GetBit(intState, m.down)
           else if m.up[i] then GetBit(intState, m.up)
           else v[i]
  {
  }

  /** With non-overlapping up and down masks, `getBit` of each mask on the
      result of the state branch is `getBit` of that mask on `intState`. */
  lemma WithStateReadsBack(v: Word, m: Masks, intState: Word)
    requires Disjoint(m.up, m.down)
    ensures GetBit(WithState(v, m, intState), m.up) == GetBit(intState, m.up)
    ensures GetBit(WithState(v, m, intState), m.down) == GetBit(intState, m.down)
  {
    WithStatePerBit(v, m, intState);
    GetBitAllBits(WithState(v, m, intState), m.up);
    GetBitAllBits(WithState(v, m, intState), m.down);
    GetBitAllBits(intState, m.up);
    GetBitAllBits(intState, m.down);
  }

  /** The values the state list offers: off, up only, down only, both. */
  predicate IsStateValue(s: Word, m: Masks) {
    s == Zero() || s == m.up || s == m.down || s == Or(m.up, m.down)
  }

  /** Writing one of the state list's values and reading the key back gives
      that value, whatever the other bits of the word are. */
  lemma StateRoundTrip(v: Word, m: Masks, intState: Word)
    requires Disjoint(m.up, m.down)
    requires IsStateValue(intState, m)
    ensures StateKey(WithState(v, m, intState), m) == intState
  {
    StateKeyIsUpDownBits(WithState(v, m, intState), m);
    GetBitAllBits(intState, m.up);
    GetBitAllBits(intState, m.down);
  }

  /** The unit branch: the unit mask is set exactly when the chosen value is
      the string "1". */
  function WithUnit(v: Word, m: Masks, newValue: string): Word {
    SetBit(v, m.unit, newValue == "1")
  }

  /** After the unit branch the unit list's index read back is 1 exactly when
      "1" was chosen, and no bit outside the unit mask has changed. */
  lemma UnitRoundTrip(v: Word, m: Masks, newValue: string)
    requires m.unit != Zero()
    ensures UnitIndex(WithUnit(v, m, newValue), m) == if newValue == "1" then 1 else 0
    ensures forall i :: 0 <= i < Width && !m.unit[i] ==> WithUnit(v, m, newValue)[i] == v[i]
  {
    GetSetBit(v, m.unit, newValue == "1");
    SetBitPerBit(v, m.unit, newValue == "1");
  }

  /** The period branch: the period mask is cleared, then `intState << 16` is
      added with Java's wrapping `+`. */
  function WithPeriod(v: Word, m: Masks, intState: Word): Word {
    Add(SetBit(v, m.period, false), ShiftLeft(intState, 16))
  }

  /** Every bit of `q` is a bit of `mask`: `(q & ~mask) == 0`. */
  predicate Inside(q: Word, mask: Word) {
    forall i :: 0 <= i < Width && q[i] ==> mask[i]
  }

  /** When the shifted period lies inside the period mask the `+` of the
      period branch cannot carry: it acts as `|`, the mask's bits take the
      shifted period and every bit outside the mask is unchanged. */
  lemma WithPeriodPerBit(v: Word, m: Masks, intState: Word)
    requires Inside(ShiftLeft(intState, 16), m.period)
    ensures WithPeriod(v, m, intState) == Or(SetBit(v, m.period, false), ShiftLeft(intState, 16))
    ensures forall i :: 0 <= i < Width ==>
      WithPeriod(v, m, intState)[i] == if m.period[i] then ShiftLeft(intState, 16)[i] else v[i]
  {
    DisjointAddIsOr(SetBit(v, m.period, false), ShiftLeft(intState, 16));
  }

  /** Writing a period in 0 .. 65535 that fits the mask and reading it back
      gives that period. */
  lemma PeriodRoundTrip(v: Word, m: Masks, intState: Word)
    requires FitsIn16(intState)
    requires Inside(ShiftLeft(intState, 16), m.period)
    ensures PeriodValue(WithPeriod(v, m, intState), m) == intState
  {
    WithPeriodPerBit(v, m, intState);
  }

  /** The mask `0xFFFF0000`: bits 16..31. */
  function HighHalf(): Word {
    seq(Width, i requires 0 <= i < Width => 16 <= i)
  }

  /** With the period mask `0xFFFF0000` every period in 0 .. 65535 survives
      the round trip, and the low 16 bits of the word are kept. */
  lemma HighHalfPeriodRoundTrip(v: Word, m: Masks, intState: Word)
    requires m.period == HighHalf()
    requires FitsIn16(intState)
    ensures PeriodValue(WithPeriod(v, m, intState), m) == intState
    ensures forall i :: 0 <= i < 16 ==> WithPeriod(v, m, intState)[i] == v[i]
  {
    WithPeriodPerBit(v, m, intState);
    PeriodRoundTrip(v, m, intState);
  }

  /** The mask `0x0000FFFF`: bits 0..15. */
  function LowHalf(): Word {
    seq(Width, i requires 0 <= i < Width => i < 16)
  }

  /** With the period mask `0xFFFF0000` any period, large or negative, is
      read back as its low 16 bits `intState & 0xFFFF`: `<< 16` drops the
      rest. */
  lemma HighHalfPeriodReadsLow16(v: Word, m: Masks, intState: Word)
    requires m.period == HighHalf()
    ensures PeriodValue(WithPeriod(v, m, intState), m) == And(intState, LowHalf())
  {
    WithPeriodPerBit(v, m, intState);
    forall i | 0 <= i < Width
      ensures PeriodValue(WithPeriod(v, m, intState), m)[i] == And(intState, LowHalf())[i]
    {
      if i + 16 < Width {
        assert WithPeriod(v, m, intState)[i + 16] == intState[i];
      }
    }
  }

  /** Whatever the period mask, a period outside 0 .. 65535 is never read
      back as written, because what is read back always fits in 16 bits. */
  lemma LargePeriodIsLost(v: Word, m: Masks, intState: Word)
    requires !FitsIn16(intState)
    ensures PeriodValue(WithPeriod(v, m, intState), m) != intState
  {
    PeriodValueFits(WithPeriod(v, m, intState), m);
  }

  // ---------------------------------------------------------------------
  // The three sub-fields together
  // ---------------------------------------------------------------------

  /** What onCreate reads out of the word: the state key, the unit index and
      the period. */
  datatype TrafficView = TrafficView(stateKey: Word, unitIndex: nat, period: Word)

  function Decode(v: Word, m: Masks): TrafficView {
    TrafficView(StateKey(v, m), UnitIndex(v, m), PeriodValue(v, m))
  }

  /** When the up and down masks share no bit with each other or with the
      other two masks, the state branch changes the state key to the
      chosen value and nothing else that is read back. */
  lemma StateUpdateDecode(v: Word, m: Masks, intState: Word)
    requires Disjoint(m.up, m.down)
    requires Disjoint(m.up, m.unit) && Disjoint(m.down, m.unit)
    requires Disjoint(m.up, m.period) && Disjoint(m.down, m.period)
    requires IsStateValue(intState, m)
    ensures Decode(WithState(v, m, intState), m) == Decode(v, m).(stateKey := intState)
  {
    StateRoundTrip(v, m, intState);
    WithStatePerBit(v, m, intState);
    assert And(WithState(v, m, intState), m.unit) == And(v, m.unit);
    assert And(WithState(v, m, intState), m.period) == And(v, m.period);
  }

  /** When the unit mask shares no bit with the other three, and up and down
      share none, the unit branch changes the unit index and nothing else
      that is read back. */
  lemma UnitUpdateDecode(v: Word, m: Masks, newValue: string)
    requires Disjoint(m.up, m.down)
    requires Disjoint(m.up, m.unit) && Disjoint(m.down, m.unit)
    requires Disjoint(m.unit, m.period)
    requires m.unit != Zero()
    ensures Decode(WithUnit(v, m, newValue), m)
         == Decode(v, m).(unitIndex := if newValue == "1" then 1 else 0)
  {
    UnitRoundTrip(v, m, newValue);
    SetBitPerBit(v, m.unit, newValue == "1");
    assert And(WithUnit(v, m, newValue), Add(m.up, m.down)) == And(v, Add(m.up, m.down)) by {
      DisjointAddIsOr(m.up, m.down);
    }
    assert And(WithUnit(v, m, newValue), m.period) == And(v, m.period);
  }

  /** When the period mask shares no bit with the other three, and up and
      down share none, the period branch changes the period and nothing else
      that is read back. */
  lemma PeriodUpdateDecode(v: Word, m: Masks, intState: Word)
    requires Disjoint(m.up, m.down)
    requires Disjoint(m.up, m.period) && Disjoint(m.down, m.period)
    requires Disjoint(m.unit, m.period)
    requires FitsIn16(intState)
    requires Inside(ShiftLeft(intState, 16), m.period)
    ensures Decode(WithPeriod(v, m, intState), m) == Decode(v, m).(period := intState)
  {
    PeriodRoundTrip(v, m, intState);
    WithPeriodPerBit(v, m, intState);
    assert And(WithPeriod(v, m, intState), Add(m.up, m.down)) == And(v, Add(m.up, m.down)) by {
      DisjointAddIsOr(m.up, m.down);
    }
    assert And(WithPeriod(v, m, intState), m.unit) == And(v, m.unit);
  }
}
