/**
 * The status-bar settings screen: the part of it that keeps the packed
 * network-traffic word and decides which preferences are enabled.
 *
 * The screen object updates its fields in place, so it is a class. Its list
 * preferences are reduced to what this part of the screen reads and writes:
 * the values of the traffic-state and traffic-period lists, the index each
 * list is set to, and whether a dependent preference is enabled.
 */
module StatusBarSettings {
  import opened Bits
  import opened TrafficCodec

  datatype Option<T> = None | Some(value: T)

  /** `Settings.System.getInt(resolver, key, fallback)`: the stored value, or
      the fallback when nothing is stored under the key. */
  function GetInt<T>(stored: Option<T>, fallback: T): T {
    if stored.Some? then stored.value else fallback
  }

  /** Battery icon styles that show no icon to put a percentage in. */
  const StyleHidden: int := 4
  const StyleText: int := 6

  /** The battery-percentage preference can be chosen unless the battery
      style is hidden or text. */
  predicate PercentSelectable(batteryIconStyle: int) {
    batteryIconStyle != StyleHidden && batteryIconStyle != StyleText
  }

  /** The traffic options can be chosen when the selected traffic state is a
      list entry after the first ("off"); -1 (not found) disables them too. */
  predicate TrafficOptionsSelectable(index: int) {
    index > 0
  }

  /** `ListPreference.findIndexOfValue`: the index of an entry value equal to
      `value`, the last such one, or -1 when there is none. */
  function FindIndexOfValue(values: seq<Word>, value: Word): (r: int)
    ensures -1 <= r < |values|
    ensures r == -1 <==> value !in values
    ensures r >= 0 ==> values[r] == value && value !in values[r + 1..]
  {
    if |values| == 0 then -1
    else if values[|values| - 1] == value then |values| - 1
    else FindIndexOfValue(values[..|values| - 1], value)
  }

  /** `index >= 0 ? index : fallback`, the index a list is set to. */
  function Selection(index: int, fallback: nat): nat {
    if index >= 0 then index else fallback
  }

  class Screen {
    /** `MASK_UP`, `MASK_DOWN`, `MASK_UNIT`, `MASK_PERIOD`. */
    const masks: Masks
    /** The entry values of the traffic-state and traffic-period lists. */
    const stateValues: seq<Word>
    const periodValues: seq<Word>

    /** `mNetTrafficVal`. */
    var netTrafficVal: Word

    /** Whether the battery-percentage list is enabled. */
    var percentEnabled: bool
    /** Whether the unit list, the period list, the autohide switch and the
        autohide threshold are enabled. */
    var unitEnabled: bool
    var periodEnabled: bool
    var autohideEnabled: bool
    var thresholdEnabled: bool

    /** The index `onCreate` sets each traffic list to with `setValueIndex`.
        A later change of a list is stored by the framework, not by the
        screen, so the change branches leave these as they are. */
    var stateSelection: nat
    var unitSelection: nat
    var periodSelection: nat

    /** The four options that depend on the traffic state are all enabled,
        or all disabled, as `enabled` says. */
    predicate TrafficOptionsEnabled(enabled: bool)
      reads this
    {
      && unitEnabled == enabled
      && periodEnabled == enabled
      && autohideEnabled == enabled
      && thresholdEnabled == enabled
    }

    /** A screen whose masks have been read from resources (`loadResources`)
        and whose lists carry the given entry values; `mNetTrafficVal` starts
        as Java's default 0. */
    constructor(masks: Masks, stateValues: seq<Word>, periodValues: seq<Word>)
      ensures this.masks == masks
      ensures this.stateValues == stateValues && this.periodValues == periodValues
      ensures netTrafficVal == Zero()
    {
      this.masks := masks;
      this.stateValues := stateValues;
      this.periodValues := periodValues;
      netTrafficVal := Zero();
    }

    /** `enableStatusBarBatteryDependents`: the percentage list is enabled
        exactly when the style is neither hidden nor text. */
    method EnableStatusBarBatteryDependents(batteryIconStyle: int)
      modifies this
      ensures percentEnabled == PercentSelectable(batteryIconStyle)
      ensures netTrafficVal == old(netTrafficVal)
      ensures unitEnabled == old(unitEnabled) && periodEnabled == old(periodEnabled)
      ensures autohideEnabled == old(autohideEnabled) && thresholdEnabled == old(thresholdEnabled)
      ensures stateSelection == old(stateSelection) && unitSelection == old(unitSelection)
      ensures periodSelection == old(periodSelection)
    {
      if batteryIconStyle == StyleHidden || batteryIconStyle == StyleText {
        percentEnabled := false;
      } else {
        percentEnabled := true;
      }
    }

    /** `updateNetworkTrafficState`: the four dependent options are enabled
        exactly when the state index is positive. */
    method UpdateNetworkTrafficState(index: int)
      modifies this
      ensures TrafficOptionsEnabled(TrafficOptionsSelectable(index))
      ensures netTrafficVal == old(netTrafficVal) && percentEnabled == old(percentEnabled)
      ensures stateSelection == old(stateSelection) && unitSelection == old(unitSelection)
      ensures periodSelection == old(periodSelection)
    {
      if index <= 0 {
        unitEnabled := false;
        periodEnabled := false;
        autohideEnabled := false;
        thresholdEnabled := false;
      } else {
        unitEnabled := true;
        periodEnabled := true;
        autohideEnabled := true;
        thresholdEnabled := true;
      }
    }

    /** The battery and network-traffic part of `onCreate`: the stored
        battery style (0 when absent) decides the percentage list; the stored
        traffic word (0 when absent) is decoded into the three list indices,
        the state falling back to index 0 and the period to index 1 when the
        decoded value is not among the list's values. */
    method OnCreate(batteryStyle: Option<int>, stored: Option<Word>)
      modifies this
      ensures percentEnabled == PercentSelectable(GetInt(batteryStyle, 0))
      ensures netTrafficVal == GetInt(stored, Zero())
      ensures var index := FindIndexOfValue(stateValues, StateKey(netTrafficVal, masks));
              && stateSelection == Selection(index, 0)
              && TrafficOptionsEnabled(TrafficOptionsSelectable(index))
      ensures unitSelection == UnitIndex(netTrafficVal, masks)
      ensures periodSelection
           == Selection(FindIndexOfValue(periodValues, PeriodValue(netTrafficVal, masks)), 1)
    {
      EnableStatusBarBatteryDependents(GetInt(batteryStyle, 0));

      netTrafficVal := GetInt(stored, Zero());
      var index := FindIndexOfValue(stateValues, StateKey(netTrafficVal, masks));
      UpdateNetworkTrafficState(index);
      stateSelection := if index >= 0 then index else 0;

      unitSelection := UnitIndex(netTrafficVal, masks);

      index := FindIndexOfValue(periodValues, PeriodValue(netTrafficVal, masks));
      periodSelection := if index >= 0 then index else 1;
    }

    /** The traffic-state branch of `onPreferenceChange`, for the parsed
        value `intState`. The word is updated first; the summary lookup then
        fails when the value is not in the list, and only when it succeeds
        are the dependent options updated. `completes` is false exactly when
        that lookup fails. */
    method OnNetTrafficStateChange(intState: Word) returns (completes: bool)
      modifies this
      ensures netTrafficVal == WithState(old(netTrafficVal), masks, intState)
      ensures completes <==> intState in stateValues
      ensures completes ==>
        TrafficOptionsEnabled(TrafficOptionsSelectable(FindIndexOfValue(stateValues, intState)))
      ensures !completes ==>
        && unitEnabled == old(unitEnabled) && periodEnabled == old(periodEnabled)
        && autohideEnabled == old(autohideEnabled) && thresholdEnabled == old(thresholdEnabled)
      ensures percentEnabled == old(percentEnabled)
      ensures stateSelection == old(stateSelection) && unitSelection == old(unitSelection)
      ensures periodSelection == old(periodSelection)
    {
      netTrafficVal := SetBit(netTrafficVal, masks.up, GetBit(intState, masks.up));
      netTrafficVal := SetBit(netTrafficVal, masks.down, GetBit(intState, masks.down));
      var index := FindIndexOfValue(stateValues, intState);
      if index < 0 {
        completes := false;
      } else {
        UpdateNetworkTrafficState(index);
        completes := true;
      }
    }

    /** The traffic-unit branch of `onPreferenceChange`: the unit mask is set
        exactly when the chosen value is "1". */
    method OnNetTrafficUnitChange(newValue: string)
      modifies this
      ensures netTrafficVal == WithUnit(old(netTrafficVal), masks, newValue)
      ensures percentEnabled == old(percentEnabled)
      ensures unitEnabled == old(unitEnabled) && periodEnabled == old(periodEnabled)
      ensures autohideEnabled == old(autohideEnabled) && thresholdEnabled == old(thresholdEnabled)
      ensures stateSelection == old(stateSelection) && unitSelection == old(unitSelection)
      ensures periodSelection == old(periodSelection)
    {
      netTrafficVal := SetBit(netTrafficVal, masks.unit, newValue == "1");
    }

    /** The traffic-period branch of `onPreferenceChange`, for the parsed
        value `intState`: clear the period mask, then add `intState << 16`. */
    method OnNetTrafficPeriodChange(intState: Word)
      modifies this
      ensures netTrafficVal == WithPeriod(old(netTrafficVal), masks, intState)
      ensures percentEnabled == old(percentEnabled)
      ensures unitEnabled == old(unitEnabled) && periodEnabled == old(periodEnabled)
      ensures autohideEnabled == old(autohideEnabled) && thresholdEnabled == old(thresholdEnabled)
      ensures stateSelection == old(stateSelection) && unitSelection == old(unitSelection)
      ensures periodSelection == old(periodSelection)
    {
      netTrafficVal := Add(SetBit(netTrafficVal, masks.period, false), ShiftLeft(intState, 16));
    }
  }

  /** After the state branch stores one of the state list's values, the next
      `onCreate` selects the entry of that value. */
  lemma ReloadSelectsSavedState(v: Word, m: Masks, values: seq<Word>, intState: Word)
    requires Disjoint(m.up, m.down)
    requires IsStateValue(intState, m)
    ensures FindIndexOfValue(values, StateKey(WithState(v, m, intState), m))
         == FindIndexOfValue(values, intState)
  {
    StateRoundTrip(v, m, intState);
  }

  /** After the period branch stores a period that fits, the next `onCreate`
      selects the entry of that period. */
  lemma ReloadSelectsSavedPeriod(v: Word, m: Masks, values: seq<Word>, intState: Word)
    requires FitsIn16(intState)
    requires Inside(ShiftLeft(intState, 16), m.period)
    ensures FindIndexOfValue(values, PeriodValue(WithPeriod(v, m, intState), m))
         == FindIndexOfValue(values, intState)
  {
    PeriodRoundTrip(v, m, intState);
  }
}
