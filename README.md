# Status-bar settings: the network-traffic word

This project models the part of the CyanogenMod status-bar settings screen
(`StatusBarSettings`) that keeps the network-traffic indicator's setting. The
screen persists that setting as one Java `int`, `mNetTrafficVal`. Four
sub-fields are packed into it, each selected by a mask read from resources:

- an "up" flag and a "down" flag, together the traffic state;
- a unit flag;
- a refresh period, stored shifted left by 16.

The screen decodes the word in `onCreate` to preset three lists. It
re-encodes one sub-field whenever the user changes one of those lists. It also
decides which dependent preferences are enabled.

Files:

- `bits.dfy` (module `Bits`): a Java `int` as its 32 bits, least
  significant first. The operators the screen uses are defined bit by bit:
  `&`, `|`, `~`, `<<`, `>>>`, and the wrapping `+` as a ripple-carry adder
  that drops the carry out of bit 31. Masks and values are therefore exact
  two's-complement bit patterns. A word is a sequence of bits rather than a
  `bv32` so that every statement about a mask is a statement about each of
  its bits, which keeps the proofs short. `ToNat` reads a word as a number,
  and `AddIsSumModulo` shows that the adder is Java's `+` modulo 2^32.
- `traffic_codec.dfy` (module `TrafficCodec`): `getBit`, `setBit`, the
  three decodes of `onCreate` and the three encodes of `onPreferenceChange`.
  Each is written as the Java computes it, followed by lemmas stating what it
  means: per-bit effects, round trips, and independence of the sub-fields.
- `status_bar_settings.dfy` (module `StatusBarSettings`): the screen as a
  class holding the masks, `mNetTrafficVal`, the enabled flags and the list
  selections. Its methods model `enableStatusBarBatteryDependents`,
  `updateNetworkTrafficState`, the network-traffic part of `onCreate` and
  the three network-traffic branches of `onPreferenceChange`.

The codec's lemmas take the masks as given and do not fix the concrete
resource values. Each lemma assumes only the facts about the masks that its
proof uses, such as disjoint up and down masks, a nonempty unit mask, or a
unit mask sharing no bit with the period mask.

Two points where a natural reading of the codec is false, and the model
follows what the Java computes:

- **Empty masks.** `getBit(v, 0)` is true for every `v`, so "writing
  `false` then reading it back gives `false`" fails for an empty mask.
  `GetSetBit` therefore requires a nonempty mask, and `GetBitEmptyMask`
  states the empty case.
- **Period masks.** The period mask is not assumed to be `0xFFFF0000`. The
  general round trip `PeriodRoundTrip` states what the mask must contain.
  `HighHalfPeriodRoundTrip` specialises it to `0xFFFF0000`.

## Model

| member | source | states |
|---|---|---|
| Bits.DisjointIffAndZero | src/com/android/settings/cyanogenmod/StatusBarSettings.java:133 | Two words have no common bit exactly when their `&` is 0. This is the meaning of "non-overlapping masks" used by the other lemmas. |
| Bits.AddBelow | src/com/android/settings/cyanogenmod/StatusBarSettings.java:221 | The low `n` bits of `a + b`, plus the carry into bit `n` weighted 2^n, are the number in the low `n` bits of `a` plus that of `b`; proved by induction over `n`. |
| Bits.AddIsSumModulo | src/com/android/settings/cyanogenmod/StatusBarSettings.java:133 | The bitwise adder is Java's wrapping `+`: read as unsigned numbers, the result is the sum of the operands modulo 2^32. |
| Bits.ValueBelowBound | src/com/android/settings/cyanogenmod/StatusBarSettings.java:221 | The number in the low `n` bits of a word is below 2^n, so a word read as a number lies in 0 .. 2^32 - 1. |
| Bits.NoCarry | src/com/android/settings/cyanogenmod/StatusBarSettings.java:133 | Adding two words with no common bit never carries, at any bit position; proved by induction over the bit positions. |
| Bits.DisjointAddIsOr | src/com/android/settings/cyanogenmod/StatusBarSettings.java:221 | On words with no common bit, Java's wrapping `+` equals `\|`. |
| TrafficCodec.GetBitAllBits | src/com/android/settings/cyanogenmod/StatusBarSettings.java:267-269 | `getBit` is a whole-mask test: true exactly when every bit of the mask is set in the value (both directions). |
| TrafficCodec.GetBitEmptyMask | src/com/android/settings/cyanogenmod/StatusBarSettings.java:267-269 | `getBit` with an empty mask holds for every value. |
| TrafficCodec.SetBitPerBit | src/com/android/settings/cyanogenmod/StatusBarSettings.java:271-276 | `setBit` gives every bit of the mask the requested state and keeps every bit outside the mask. |
| TrafficCodec.GetSetBit | src/com/android/settings/cyanogenmod/StatusBarSettings.java:267-276 | For a nonempty mask, `getBit` after `setBit` returns the state that was written. |
| TrafficCodec.SetBitIdempotent | src/com/android/settings/cyanogenmod/StatusBarSettings.java:271-276 | Writing a mask twice with the same state is the same as writing it once. |
| TrafficCodec.SetThenClear | src/com/android/settings/cyanogenmod/StatusBarSettings.java:271-276 | Setting a mask and then clearing it gives `v & ~mask`, whatever `v` held on the mask. |
| TrafficCodec.GetBitIffSetIsNoOp | src/com/android/settings/cyanogenmod/StatusBarSettings.java:267-276 | `getBit` holds exactly when setting the mask would leave the value unchanged. |
| TrafficCodec.StateKeyIsUpDownBits | src/com/android/settings/cyanogenmod/StatusBarSettings.java:133 | With disjoint up and down masks, the key `v & (MASK_UP + MASK_DOWN)` equals `v & (MASK_UP \| MASK_DOWN)`: exactly the up and down bits of the word. |
| TrafficCodec.UnitIndexReadsUnitBits | src/com/android/settings/cyanogenmod/StatusBarSettings.java:141 | The unit list's initial index is 0 or 1. It is 1 exactly when every bit of the unit mask is set in the word. |
| TrafficCodec.PeriodValueFits | src/com/android/settings/cyanogenmod/StatusBarSettings.java:145 | `(v & MASK_PERIOD) >>> 16` always lies in 0 .. 65535. |
| TrafficCodec.WithStatePerBit | src/com/android/settings/cyanogenmod/StatusBarSettings.java:203-205 | After the state branch, each bit is set as follows: every down bit is `getBit(intState, MASK_DOWN)`; every other up bit is `getBit(intState, MASK_UP)`, so on overlapping masks the later down write wins; every bit outside both masks is unchanged. |
| TrafficCodec.WithStateReadsBack | src/com/android/settings/cyanogenmod/StatusBarSettings.java:203-205 | With disjoint up and down masks, `getBit` of each mask after the state branch equals `getBit` of that mask on the chosen value. |
| TrafficCodec.StateRoundTrip | src/com/android/settings/cyanogenmod/StatusBarSettings.java:133-134 | Take disjoint up and down masks and a state-list value: off, up, down or up\|down. Writing it and reading the key back gives that value, whatever the rest of the word holds. |
| TrafficCodec.UnitRoundTrip | src/com/android/settings/cyanogenmod/StatusBarSettings.java:213 | For a nonempty unit mask, after the unit branch the unit index read back is 1 exactly when "1" was chosen. No bit outside the unit mask changes. |
| TrafficCodec.WithPeriodPerBit | src/com/android/settings/cyanogenmod/StatusBarSettings.java:221 | When `intState << 16` lies inside the period mask, the `+` of the period branch equals `\|`. The mask bits then hold `intState << 16`, and every other bit is unchanged. |
| TrafficCodec.PeriodRoundTrip | src/com/android/settings/cyanogenmod/StatusBarSettings.java:221 | Take a period in 0 .. 65535 whose shifted bits lie inside the period mask. Writing it and reading it back with `>>> 16` gives the same period. |
| TrafficCodec.HighHalfPeriodRoundTrip | src/com/android/settings/cyanogenmod/StatusBarSettings.java:221 | With the period mask `0xFFFF0000`, every period in 0 .. 65535 survives the round trip, and the low 16 bits of the word are kept. |
| TrafficCodec.HighHalfPeriodReadsLow16 | src/com/android/settings/cyanogenmod/StatusBarSettings.java:221 | With the mask `0xFFFF0000`, any period, large or negative, is read back as its low 16 bits `intState & 0xFFFF`. |
| TrafficCodec.LargePeriodIsLost | src/com/android/settings/cyanogenmod/StatusBarSettings.java:221 | For every period mask, a period outside 0 .. 65535 is never read back as written, because the value read back always lies in 0 .. 65535. |
| TrafficCodec.StateUpdateDecode | src/com/android/settings/cyanogenmod/StatusBarSettings.java:203-205 | If the up and down masks are disjoint and share no bit with the unit or the period mask, then for a state-list value (off, up, down or up\|down) the state branch changes the decoded state key to the chosen value and leaves the decoded unit index and period unchanged. |
| TrafficCodec.UnitUpdateDecode | src/com/android/settings/cyanogenmod/StatusBarSettings.java:213 | If the unit mask is nonempty and shares no bit with the up, down or period mask, and the up and down masks are disjoint, the unit branch changes only the decoded unit index. |
| TrafficCodec.PeriodUpdateDecode | src/com/android/settings/cyanogenmod/StatusBarSettings.java:221 | If the period mask shares no bit with the up, down or unit mask, the up and down masks are disjoint, and the period fits the period mask, the period branch changes only the decoded period. |
| StatusBarSettings.FindIndexOfValue | src/com/android/settings/cyanogenmod/StatusBarSettings.java:134 | Returns an index of an entry equal to the value, and no later entry is equal. Returns -1 exactly when no entry is equal. |
| StatusBarSettings.Screen.constructor | src/com/android/settings/cyanogenmod/StatusBarSettings.java:278-284 | Stores the four masks read from resources. `mNetTrafficVal` starts at 0. |
| StatusBarSettings.Screen.EnableStatusBarBatteryDependents | src/com/android/settings/cyanogenmod/StatusBarSettings.java:236-243 | The percentage list is enabled exactly when the battery style is neither hidden (4) nor text (6). Nothing else changes. |
| StatusBarSettings.Screen.UpdateNetworkTrafficState | src/com/android/settings/cyanogenmod/StatusBarSettings.java:286-298 | The unit list, the period list, the autohide switch and the threshold are all enabled exactly when the index is positive: off (0) or not found (-1) disables them. Nothing else changes. |
| StatusBarSettings.Screen.OnCreate | src/com/android/settings/cyanogenmod/StatusBarSettings.java:109-147 | Uses the stored battery style (0 when absent) and the stored word (0 when absent). The percentage list follows the style. The state list is set to the key's index, or 0 when the key is not found, and the dependents follow that index. The unit list is set from the unit bit. The period list is set to the period's index, or 1 when it is not found. |
| StatusBarSettings.Screen.OnNetTrafficStateChange | src/com/android/settings/cyanogenmod/StatusBarSettings.java:202-211 | The word becomes `WithState` of the old word. The branch completes exactly when the value is in the state list, and only then are the dependents updated from its index. |
| StatusBarSettings.Screen.OnNetTrafficUnitChange | src/com/android/settings/cyanogenmod/StatusBarSettings.java:212-218 | The word becomes `WithUnit` of the old word: the unit mask is set iff the value is "1". Nothing else changes. |
| StatusBarSettings.Screen.OnNetTrafficPeriodChange | src/com/android/settings/cyanogenmod/StatusBarSettings.java:219-226 | The word becomes `WithPeriod` of the old word: the period mask is cleared, then `intState << 16` is added with wrapping. Nothing else changes. |
| StatusBarSettings.ReloadSelectsSavedState | src/com/android/settings/cyanogenmod/StatusBarSettings.java:133-134 | With disjoint up and down masks, after the state branch stores a state-list value (off, up, down or up\|down), the next `onCreate` looks up the same list entry that was chosen. |
| StatusBarSettings.ReloadSelectsSavedPeriod | src/com/android/settings/cyanogenmod/StatusBarSettings.java:145-146 | After the period branch stores a period that fits, the next `onCreate` looks up the same list entry that was chosen. |

## Left out

- Preference widgets are not modelled: summaries (`setSummary`, `getEntry`, `getEntries`), change listeners and `addPreferencesFromResource`. A list is reduced to its entry values and the index it is set to.
- `Settings.System` storage is not modelled. `getInt` becomes an optional parameter of `OnCreate` with the same fallback, and each `putInt` of `mNetTrafficVal` stores the value the model's `netTrafficVal` holds.
- `Integer.valueOf` is not modelled. The state and period branches take the parsed value as input.
- `ListPreference.findIndexOfValue` belongs to the Android framework, outside this repository. `FindIndexOfValue` models it as the framework's scan from the last entry backwards.
  - It returns the last matching entry, or -1 when none matches.
  - It compares the parsed values. This equals the framework's string comparison only when the entry values are canonical decimal spellings.
- The exception raised by `getEntries()[-1]` is not modelled as an exception.
  - In the state branch it is the result `completes == false`. The word has already been updated at that point, and the dependents are not.
  - In the unit and period branches the failing lookup comes after the word update and changes nothing else that is modelled, so it is left out.
- The lists' own values after a change are not modelled. The framework stores the chosen value once `onPreferenceChange` returns true. `stateSelection`, `unitSelection` and `periodSelection` therefore record only what `onCreate`'s `setValueIndex` sets, and the change branches leave them as they were.
- `setValueIndex` with an index the list does not have is not modelled. This is framework behaviour. An example is the period fallback 1 on a list with fewer than two entries.
- The clock, AM/PM, battery-style, battery-percentage and autohide-threshold branches of `onPreferenceChange` are not modelled, nor their storage. They do not touch the traffic word. `enableStatusBarBatteryDependents` is still modelled and is called from `OnCreate`.
- `onResume`'s right-to-left clock entries are not modelled. It is a display-only layout adjustment.
- The 24-hour-format check is not modelled. It depends on the device clock and only enables the AM/PM list.
- The phone-count check is not modelled. It calls the telephony service and only removes a preference.
- The search-index provider is not modelled. It only lists a resource for search.
- `loadResources` reads four resource integers. Only that part is modelled, as the constructor's `masks` parameter; the resource lookup is not.
