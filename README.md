# Istanbul real-estate opportunity detector — a Dafny model of its core

The application (`AB_degil_01/app.py`) is a one-page web form. A user types
a district, a neighbourhood, the floor area, the room count (`3+1`, `studio`,
…), the bath count, the building age and the asking price. The page turns
these answers into the feature row of a pre-trained price model, asks the
model for a fair value, and shows a verdict: FIRSAT (an opportunity), PAHALI
(overpriced) or NORMAL.

This project models the logic behind that page:

- **`to_num`**: the lenient number reader. It strips the text, turns commas
  into points, keeps only digits, `.` and `-`, and hands the rest to `float`.
  It never fails; missing is `None`.
- **`parse_rooms`**: the room-count reader, with `studio`, `1+0` and `X+Y`.
- **`build_input`**:
  - It starts from the bundle's default row.
  - It writes the usable answers with `safe_set`.
  - It recomputes the derived features (`log_area`, `area_per_room`,
    `room_bath_ratio`, `age_bucket`) inside a `try` block, so the first
    failure skips the rest.
  - It applies target encoding (`apply_te`).
  - It selects the expected feature columns.
- **`investment_advice`**: the three-way verdict from the percentage gap
  between fair value and price.
- **The submit handler**:
  - It checks for a district, then for a positive price.
  - It warns above 2,500,000.
  - It reports a prediction error when the row cannot be built or the
    scorer fails.
- **The drop-down option lists** built from the count tables.

## Files

- `text.dfy` (module `Text`): the pieces of Python's `str` the code relies
  on.
  - `strip` uses Python's white-space set.
  - `lower` and `isdigit` cover ASCII only.
  - Also `in`, `split('+')` and the code-point order of `sorted`.
- `numeric.dfy` (module `Numeric`): `to_num`, Python's `float` on decimal
  literals, and `parse_rooms`.
- `frame.dfy` (module `Frames`): the one-row DataFrame as a `Row` value, plus
  a `Frame` class updated in place.
  - `safe_set`, `df[col] = …` and `X[features]` are functions on `Row`.
  - The class methods are proved to perform those functions.
- `target_encoding.dfy` (module `TargetEncoding`): `apply_one` and
  `apply_te`.
- `features.dfy` (module `Features`): the form overrides, the derived
  features, and `build_input` as an imperative method proved against the
  function `Assemble`.
- `advice.dfy` (module `Advice`): `investment_advice`.
- `submission.dfy` (module `Submission`): the submit handler and the option
  lists.

Python's NaN is `Missing` in a cell and `None` as a parse result.
`float(cell)` gives a `Float` (finite or `NaN`), or `None` where Python
raises. Three collaborators are function parameters:

- `show` stands for `str` of a number.
- `log1p` stands for `np.log1p`.
- `score` stands for the trained model followed by `np.expm1`; `None` means
  it raised.

### Behaviour of the code worth knowing

- **Thousands separators.** `"1.234,5"` is missing. The code turns the comma
  into a point, which leaves two points, so `float` raises
  (`ToNumThousands`).
- **`1+0` is a substring test.** `"11+0"` and `"21+0"` read as one room
  (`RoomsElevenPlusZero`).
- **Age bins.** They are `(-1,5]`, `(5,15]`, `(15,30]` and `(30,200]`. Ages
  of -1 or below, or above 200, get the label `"nan"` (`AgeBuckets`).
- **Price 100, fair value 110, threshold 10.** The delta is
  `10 / (100 + 1e-9) * 100`, just below 10, so the verdict is NORMAL
  (`AdviceExamples`).

## Model

| member | source | states |
|---|---|---|
| `Text.StripBounds` | AB_degil_01/app.py:44 | `strip` removes exactly a white-space prefix and a white-space suffix; what is left starts and ends with a non-space character |
| `Text.StripEmpty` | AB_degil_01/app.py:44-46 | a stripped text is empty exactly when every character is white space |
| `Text.Lower` | AB_degil_01/app.py:56 | `lower` keeps the length and lower-cases each ASCII letter in place |
| `Text.IndexOf` | AB_degil_01/app.py:62 | the first position of a character, or `None` exactly when it does not occur |
| `Text.Split` | AB_degil_01/app.py:62 | `split` gives at least one piece, and no piece contains the separator |
| `Text.JoinSplit` | AB_degil_01/app.py:62 | joining the pieces of a split gives back the text |
| `Text.SplitJoin` | AB_degil_01/app.py:62 | splitting a join of separator-free pieces gives back the pieces |
| `Text.SortedKeys` | AB_degil_01/app.py:175 | `sorted(keys)` has every key exactly once, in strictly increasing code-point order |
| `Text.LeastExists` | AB_degil_01/app.py:175 | every non-empty set of strings has a least element in that order |
| `Text.BelowTransitive` | AB_degil_01/app.py:175 | Python's string order is transitive |
| `Text.BelowTotal` | AB_degil_01/app.py:175 | any two different strings are ordered one way or the other |
| `Numeric.Unsigned` | AB_degil_01/app.py:49 | `float` accepts an unsigned literal exactly when it has digits and at most one point |
| `Numeric.UnsignedDefined` | AB_degil_01/app.py:48-49 | on filtered text, `float` succeeds exactly when there is no `-`, at most one `.` and some digit |
| `Numeric.LiteralDefined` | AB_degil_01/app.py:48-49 | on filtered text, `float` succeeds exactly for an optional leading `-`, no other `-`, at most one `.` and some digit |
| `Numeric.ToNum` | AB_degil_01/app.py:42-43 | `None` reads as missing |
| `Numeric.ToNumBlank` | AB_degil_01/app.py:40-46 | `None`, empty and white-space-only input read as missing |
| `Numeric.CleanedIgnoresStrip` | AB_degil_01/app.py:44-48 | the strip does not change the text `float` finally sees |
| `Numeric.ToNumCleaned` | AB_degil_01/app.py:40-51 | `to_num` is `float` of the comma-to-point, digit/point/minus-filtered text, or missing when that text is empty |
| `Numeric.ToNumDefined` | AB_degil_01/app.py:40-51 | `to_num` gives a number exactly when the filtered text is a well-formed literal |
| `Numeric.ToNumDecimalComma` | AB_degil_01/app.py:47-49 | `whole,frac` reads as the decimal number `whole.frac` |
| `Numeric.ToNumThousands` | AB_degil_01/app.py:47-49 | `a.b,c` with digit runs is missing (two points after the comma becomes one) |
| `Numeric.ThousandsExample` | AB_degil_01/app.py:47-49 | `"1.234,5"` is missing |
| `Numeric.ToNumStrayMinus` | AB_degil_01/app.py:48-51 | a minus sign after a leading digit string (`X-Y`) makes the text missing |
| `Numeric.StrayMinusExample` | AB_degil_01/app.py:48-51 | `"1-2"` is missing |
| `Numeric.ToNumSignAlone` | AB_degil_01/app.py:48-51 | `"-"` alone is missing |
| `Numeric.ToNumPadded` | AB_degil_01/app.py:44 | white space around the text changes nothing |
| `Numeric.ToNumNatText` | AB_degil_01/app.py:40-51 | the decimal text of a natural number reads as that number |
| `Numeric.ParseRooms` | AB_degil_01/app.py:54-55 | `None` reads as missing |
| `Numeric.RoomsBlank` | AB_degil_01/app.py:56-58 | empty and white-space-only text is missing |
| `Numeric.RoomsOne` | AB_degil_01/app.py:56-60 | `studio` or `1+0` anywhere in the text, in any letter case, reads as one room |
| `Numeric.PlusPairOf` | AB_degil_01/app.py:61-64 | `X+Y` with digit strings is read as the pair, with value X + Y |
| `Numeric.PlusPair` | AB_degil_01/app.py:61-64 | a pair is read only from text that contains `+`; `PlusPairOf` and `PlusPairRest` give its value |
| `Numeric.PlusPairRest` | AB_degil_01/app.py:61-64 | pieces after the second `+` are ignored |
| `Numeric.PlusTextFacts` | AB_degil_01/app.py:56-64 | `X+Y` with digit strings is already stripped and lower-case, does not contain `studio`, and reads as the pair X + Y |
| `Numeric.RoomsPair` | AB_degil_01/app.py:56-64 | any text whose lower-cased, stripped form has no `studio` and reads as a pair N counts N rooms, or 1 when that form contains `1+0`; with `PlusTextFacts` this gives X + Y for `X+Y` |
| `Numeric.RoomsFallBack` | AB_degil_01/app.py:56-65 | text with no `studio`, no `1+0` and no digit pair reads exactly as `to_num` of the original text |
| `Numeric.RoomsThreePlusOne` | AB_degil_01/app.py:61-64 | `"3+1"` gives 4 |
| `Numeric.RoomsStudio` | AB_degil_01/app.py:56-60 | `" Studio "` gives 1 |
| `Numeric.RoomsElevenPlusZero` | AB_degil_01/app.py:59-60 | `"11+0"` gives 1, because it contains `1+0` |
| `Numeric.RoomsTwo` | AB_degil_01/app.py:65 | `"2"` gives 2 |
| `Numeric.RoomsThreePlusA` | AB_degil_01/app.py:61-65 | `"3+a"` is not a digit pair and gives 3 through `to_num` |
| `Frames.SafeSetRow` | AB_degil_01/app.py:104-106 | only an existing, non-empty column with a value is written; no column is added, and every other cell is kept |
| `Frames.SafeSetWellFormed` | AB_degil_01/app.py:104-106 | `safe_set` keeps the column names distinct and equal to the cell names |
| `Frames.AssignRow` | AB_degil_01/app.py:86-88 | `df[col] = v` overwrites an existing column in place or appends a new one at the end |
| `Frames.AssignWellFormed` | AB_degil_01/app.py:86-88 | assigning keeps the column names distinct |
| `Frames.Select` | AB_degil_01/app.py:165 | `X[features]` gives the listed cells in the listed order exactly when every feature is a column; otherwise it names missing features only |
| `Frames.SelectReportsAll` | AB_degil_01/app.py:165 | every missing feature is named |
| `Frames.Frame.constructor` | AB_degil_01/app.py:110 | the frame holds the default row |
| `Frames.Frame.Copy` | AB_degil_01/app.py:68 | a fresh frame with the same columns and cells |
| `Frames.Frame.At` | AB_degil_01/app.py:143 | `X.at[0, col]` reads the cell |
| `Frames.Frame.SafeSet` | AB_degil_01/app.py:104-106 | the frame after the call is `SafeSetRow` of the frame before |
| `Frames.Frame.Assign` | AB_degil_01/app.py:86-88 | the frame after the call is `AssignRow` of the frame before |
| `TargetEncoding.Lookup` | AB_degil_01/app.py:86-88 | `map(...).fillna(...)`: the table's value for a known key, the fallback otherwise |
| `TargetEncoding.EncodedNamesDiffer` | AB_degil_01/app.py:86-88 | the `te_` columns never overwrite their source column |
| `TargetEncoding.ApplyOneCells` | AB_degil_01/app.py:70-88 | a configured role writes `te_<col>_mean/_med/_cnt` from the tables for `str(cell)`; an unseen category falls back to the global mean and median (0.0 when absent) and a count of 0.0; the source column and every other cell are kept |
| `TargetEncoding.ApplyOneSkips` | AB_degil_01/app.py:71-77 | a role with no entry, no maps, no column name, or a column not in the frame changes nothing |
| `TargetEncoding.ApplyOneKeepsOrder` | AB_degil_01/app.py:86-88 | existing columns keep their place, and at most three are appended |
| `TargetEncoding.ApplyOneWellFormed` | AB_degil_01/app.py:70-88 | encoding keeps the column names distinct |
| `TargetEncoding.NeighborhoodWins` | AB_degil_01/app.py:90-91 | when both roles encode the same column, the neighbourhood tables, applied second, decide the result |
| `TargetEncoding.EncodedKeepsOthers` | AB_degil_01/app.py:67-92 | every cell that is not an encoded column keeps its value |
| `TargetEncoding.ApplyOne` | AB_degil_01/app.py:70-88 | the frame after the call is `ApplyOneRow` of the frame before |
| `TargetEncoding.ApplyTe` | AB_degil_01/app.py:67-92 | a fresh frame holding `Encoded` of the input (district first, then neighbourhood); the input frame is unchanged |
| `Features.ApplyAllShape` | AB_degil_01/app.py:112-134 | the override step never adds or removes a column |
| `Features.ApplyAllUntouched` | AB_degil_01/app.py:112-134 | a cell that no guarded write targets keeps its default value |
| `Features.ApplyAllOwn` | AB_degil_01/app.py:112-134 | a column written by only one role holds that role's value when its guard passes, and its default otherwise |
| `Features.OverriddenKeepsOthers` | AB_degil_01/app.py:112-134 | columns that no role names keep their default values |
| `Features.OverriddenRole` | AB_degil_01/app.py:113-134 | district and neighbourhood columns hold the stripped text unless it is blank; area, rooms, baths and age columns hold the parse unless it is missing; otherwise the default stays |
| `Features.Divide` | AB_degil_01/app.py:147-150 | Python float division raises exactly on a zero divisor, even for a NaN numerator, and is NaN for a NaN operand otherwise |
| `Features.Cut` | AB_degil_01/app.py:153-157 | `pd.cut` gives no label exactly when no right-closed interval `(e[i], e[i+1]]` holds the value, and otherwise the label of an interval that holds it |
| `Features.AgeBuckets` | AB_degil_01/app.py:152-157 | the age bins spelled out: (-1,5] "0-5", (5,15] "6-15", (15,30] "16-30", (30,200] "30+", anything else "nan" |
| `Features.PerformShape` | AB_degil_01/app.py:143-157 | a derived step writes only its own target, which is already a column |
| `Features.DerivedKeepsOthers` | AB_degil_01/app.py:142-159 | the derived-feature step adds no column and changes no cell except the four derived ones |
| `Features.AreaPerRoomValues` | AB_degil_01/app.py:146-147 | `area_per_room` is area / (rooms + 1), and a room count of -1 raises |
| `Features.RoomBathValues` | AB_degil_01/app.py:149-150 | `room_bath_ratio` is rooms / (baths + 0.001), and a bath count of -0.001 raises |
| `Features.AreaPerRoomGuard` | AB_degil_01/app.py:146-147 | `area_per_room` is touched exactly when its three columns exist, and then raises exactly when `float` cannot read the area or the rooms, or the rooms are -1 |
| `Features.RoomBathGuard` | AB_degil_01/app.py:149-150 | `room_bath_ratio` is touched exactly when its three columns exist, and then raises exactly when `float` cannot read the rooms or the baths, or the baths are -0.001 |
| `Features.AreaPerRoomMissing` | AB_degil_01/app.py:146-147 | a missing area gives a missing ratio rather than an error |
| `Features.DerivedStopsAtAreaPerRoom` | AB_degil_01/app.py:142-159 | when `area_per_room` raises, the `log_area` write stays and the two later features keep their values |
| `Features.LogAreaRaiseStopsAll` | AB_degil_01/app.py:142-145 | when `log_area` raises, the block writes nothing |
| `Features.RoomBathRaiseKeepsFirstTwo` | AB_degil_01/app.py:142-159 | when `room_bath_ratio` raises, the first two writes stay and `room_bath_ratio` and `age_bucket` keep their values |
| `Features.AgeBucketRaiseKeepsFirstThree` | AB_degil_01/app.py:142-159 | when `age_bucket` raises, the first three writes stay and `age_bucket` keeps its value |
| `Features.LogAreaValue` | AB_degil_01/app.py:144-145 | `log_area` is touched exactly when both columns exist and the area is not missing; it raises exactly when `float` cannot read the area, and a numeric area gives `log1p(area)` |
| `Features.AgeBucketValue` | AB_degil_01/app.py:152-157 | `age_bucket` is touched exactly when both columns exist and the age is not missing; it raises exactly when `float` cannot read the age, and a numeric age gives the label of its bin |
| `Features.AssembleShape` | AB_degil_01/app.py:164-166 | the result has exactly the expected features in order, or names every one that is missing after target encoding |
| `Features.AssembleNeedsColumns` | AB_degil_01/app.py:108-166 | a feature that is neither a default column nor an encoded column makes the call fail, whatever the answers |
| `Features.EncodedAddsOnly` | AB_degil_01/app.py:67-92 | target encoding only adds the `te_` columns of the roles |
| `Features.Guarded` | AB_degil_01/app.py:113-134 | one guarded `safe_set` performs the next request on the frame and leaves the rest to reach the same final row |
| `Features.Override` | AB_degil_01/app.py:112-134 | the six guarded writes leave the frame equal to the parsed answers' requests applied, in order, to the old frame |
| `Features.LogAreaOnFrame` | AB_degil_01/app.py:143-144 | performs the `log_area` step and reports whether it raised |
| `Features.AreaPerRoomOnFrame` | AB_degil_01/app.py:146-147 | performs the `area_per_room` step and reports whether it raised |
| `Features.RoomBathOnFrame` | AB_degil_01/app.py:149-150 | performs the `room_bath_ratio` step and reports whether it raised |
| `Features.AgeBucketOnFrame` | AB_degil_01/app.py:152-157 | performs the `age_bucket` step and reports whether it raised |
| `Features.RecomputeDerived` | AB_degil_01/app.py:142-159 | the `try` block leaves the frame equal to `Derived` of the frame before |
| `Features.BuildInput` | AB_degil_01/app.py:108-166 | `build_input` returns `Assemble`: the overrides, then the derived features, then target encoding, then the feature selection |
| `Advice.InvestmentAdvice` | AB_degil_01/app.py:95-96 | a price of 0 or less gives NORMAL with delta 0 |
| `Advice.AdviceByMargin` | AB_degil_01/app.py:97-102 | for a positive price, without division: FIRSAT exactly when 100·(fair − price) > threshold·(price + 1e-9), PAHALI exactly when it is below −threshold·(price + 1e-9) and not FIRSAT, NORMAL otherwise |
| `Advice.DeltaSign` | AB_degil_01/app.py:97 | the delta is positive exactly when fair > price, and zero exactly when they are equal |
| `Advice.AdviceAtPrice` | AB_degil_01/app.py:97-102 | fair value equal to the price gives (NORMAL, 0) for a non-negative threshold |
| `Advice.AdviceMonotone` | AB_degil_01/app.py:94-102 | a higher fair value never gives a smaller delta or a worse verdict |
| `Advice.AdviceExamples` | AB_degil_01/app.py:94-102 | with threshold 10 and price 100: fair 110 is NORMAL, 111 FIRSAT and 89 PAHALI; a price of 0 gives (NORMAL, 0) |
| `Submission.RoleOptions` | AB_degil_01/app.py:172-184 | the options are sorted, distinct, and are exactly the keys of the count table |
| `Submission.DistrictList` | AB_degil_01/app.py:187 | a blank entry first, then exactly the district options |
| `Submission.NeighborhoodList` | AB_degil_01/app.py:188 | a blank entry, then "Diğer (Elle yaz)", then exactly the neighbourhood options |
| `Submission.Threshold` | AB_degil_01/app.py:26 | the bundle's threshold, or 10.0 when it has none |
| `Submission.DistrictListComplete` | AB_degil_01/app.py:172-187 | every counted district is offered, and none twice |
| `Submission.CheckInputs` | AB_degil_01/app.py:249-260 | going on means a positive price, with the warning exactly above 2,500,000 |
| `Submission.RespondNeedsDistrict` | AB_degil_01/app.py:251-253 | the district message shows exactly when the district is blank, before any price check |
| `Submission.RespondNeedsPrice` | AB_degil_01/app.py:255-257 | with a district, the price message shows exactly when the price is missing or not positive |
| `Submission.RespondAdvice` | AB_degil_01/app.py:249-272 | advice is given only for a non-blank district and a positive price; the row was built, the scorer gave the fair value, and the verdict is `investment_advice` of the two |
| `Submission.RespondMissingFeature` | AB_degil_01/app.py:262-275 | an expected feature missing after target encoding ends in a prediction error with no verdict |
| `Submission.Submit` | AB_degil_01/app.py:248-275 | the submit handler returns `Respond` |

## Left out

- The Streamlit page is not modelled (AB_degil_01/app.py:7-37 and 190-245). This covers widgets, session state, reruns, messages and the formatting of the figures; it is presentation only. The form's answers are inputs.
- The choice between the neighbourhood drop-down and the custom text box (AB_degil_01/app.py:220-233) is not modelled. It is UI; the chosen text is the `neighborhood` answer.
- Loading the bundle is not modelled (AB_degil_01/app.py:9-34). This includes the file check, `joblib` and the stop on a missing schema or default row. The bundle is an input value; the default row is given as a well-formed `Row`, since a Python dict cannot repeat a key.
- The model's `predict` and `np.expm1` become the parameter `score`; they are opaque.
- `np.log1p` is the parameter `log1p`. For an area of -1 or less it gives -inf or NaN, and that is not modelled.
- `str` of a number is the parameter `show`. Target-encoding keys are therefore not tied to Python's float formatting, nor to the int/float distinction of default values.
- Numbers are exact reals, so IEEE rounding, infinities and overflow are not modelled. `1e-9` and `1e-3` are the exact fractions 1/10^9 and 1/1000.
- `float` of a text cell accepts only decimal literals. Exponents, `inf`, `nan` and digit-group underscores are not accepted. In `to_num` these never reach `float`, because the filter keeps only digits, `.` and `-`.
- `isdigit` and `lower` cover ASCII only. Other Unicode digits and letters are not modelled. In Python `'²'.isdigit()` is true, so `to_num("100 m²")` keeps the `²` and `float` fails, giving missing; the model drops the `²` and reads 100. The area field is labelled in m², so such input is plausible. In `parse_rooms` the same gap matters: `"²+1"` passes `isdigit` on both pieces, so `float("²")` raises outside any `try` and the submit handler reports a prediction error, while the model rejects the pair and reads 1 through `to_num`.
- pandas dtypes and cell up-casting are not modelled. Values of other types in the bundle are not modelled either: a non-string column name, non-string table keys, or NaN values inside the tables.
- The `except` around the option lists is not modelled. The encoding tables have string keys, so sorting cannot raise.
- `TargetEncoding.ApplyOneRow` reads an absent global mean or median as 0.0. A global value that is present but `None` makes `float(None)` raise in `apply_one`, and that case is not modelled; such a table is outside `Tables`.
- `Features.AsFloat` treats a text cell that Python's `float` reads as NaN (`"nan"`) as an error rather than as NaN.
