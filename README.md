# Waiting and parameter helpers of the UI-automation keyword library

This project is a Dafny model of two helper modules of a Robot Framework
keyword library that drives Windows UI automation:

- `impl/_util.py` supplies two things:
  - the **result matcher** `result_modifier`, with `_negate` and the inner
    `make_prefer_bool`. It decides whether a list of found UI elements
    satisfies the caller's quantifier (`any`, `all`, `single`, `none`,
    `number`, `index`, optionally negated with `not_found`), and it refuses
    contradictory flag combinations;
  - the **`Delay` value**. It parses durations such as `" 10s "`, `"~10ms"`
    or `"forever"` (the `~` flag multiplies by the machine benchmark), and
    it compares them three ways, with forever above every finite delay.
- `impl/_params.py` holds the **parameter parsers** that keywords use:
  - `parse`, `fixed_val`, `str_2_bool`, `parse_bool` with its `BOOL_VALS`
    table, and `get_attr_and_action`, which reads a space-separated
    "action attribute" pair;
  - `parse_positional`, which consumes a mutable list from the front;
  - `parse_named2`, which renames keyword arguments through a table;
  - the decorator `robot_args`, which puts these together.

Layout (one Dafny module per file):

| file | module | contents |
|---|---|---|
| `py_runtime.dfy` | `PyRuntime` | The Python behaviour the helpers rely on: `Option`, `Result` and the raised exceptions; Python values and `bool(v)`; ASCII `upper`/`lower`; `strip`; `startswith`/`endswith`; `split(' ')` and `join`; `str()` of an int; `float()` on finite decimal numerals; a mutable list object |
| `util.dfy` | `Util` | `result_modifier` as a pure function, with one lemma per quantifier and an exact characterisation of the refused flag combinations. `Delay.__init__` as a method with its loop over the units, proved equal to a specification function; the numeric lemmas are stated about that function. `Delay.__cmp__`, proved to be the intended total order |
| `params.dfy` | `Params` | The rules as Dafny functions. `parse_positional` is a method that mutates a list object and is proved against a specification function. `parse_named2` is a method whose iteration order is left open. `robot_args` is a method that combines the two |
| `util_doctests.dfy`, `params_doctests.dfy` | `UtilDoctests`, `ParamsDoctests` | Every docstring example of the modelled functions, stated on the model |

The model represents these values as follows:

- **Python values** are the datatype `PyValue`: `None`, bool, int or str.
  - `result_modifier` is generic in the element type and takes `bool(v)` as
    a parameter.
  - The helpers in `Params` are generic in the argument and result types.
- **An exception** that a function raises is an `Err` value.
- **The class attribute `Delay.BENCHMARK`** is the parameter `benchmark`.
- **`float()`** is the parameter `float` (`None` stands for its
  `ValueError`).
  - `PyRuntime.ParseFloat` is a concrete `float()` for decimal numerals, and
    the doctests are proved for any `float` that agrees with it on the
    numerals they use.
  - The `~` doctests of `Delay.__init__` expect `~10s` to be 20 seconds.
    That holds only when `BENCHMARK` is 2. The class attribute starts at
    `VERY_SLOW_COMPUTER` (5), and the `do_benchmarking` examples leave it
    at 1. The doctests are therefore stated with `benchmark` = 2.0.

## Model

| member | source | states |
|---|---|---|
| `Util.Negate` | impl/_util.py:222-225 | An element counts as found exactly when its truth value differs from `not_found` |
| `Util.Found` | impl/_util.py:345 | `filtered` is no longer than `res`, and each of its elements counts as found |
| `Util.FoundAppend` | impl/_util.py:345 | Filtering distributes over list concatenation |
| `Util.FoundNonEmptyIff` | impl/_util.py:345 | Something is filtered in iff some element of `res` counts as found |
| `Util.FoundAllIff` | impl/_util.py:345 | `len(filtered) == len(res)` iff every element counts as found |
| `Util.FoundSingleIff` | impl/_util.py:345 | `len(filtered) == 1` iff exactly one element counts as found |
| `Util.CountTrue` | impl/_util.py:339-343 | The count of true flags is at most the number of flags |
| `Util.CountTrueAtMostOne` | impl/_util.py:339-343 | "At most one true flag" (`len([...]) <= 1`) iff no two flags are both true |
| `Util.CountTrueZero` | impl/_util.py:339-343 | No flag counts iff every flag is false |
| `Util.Rebind` | impl/_util.py:327-337 | After the rebinding `single` holds iff it was given without `none`, and `none` iff it was given without `single`. The single-or-none mode holds iff both were given, or the source is a scalar and neither was. `initial_none` is `none` as given, and in the single-or-none mode `initial_single` always holds |
| `Util.FlagCheck` | impl/_util.py:339-343 | The checks raise iff one of the two flag lists has more than one true entry, and then raise `IronbotException` with one of the two messages |
| `Util.Match` | impl/_util.py:345-376 | In every reply of the branch chain the message is absent exactly when `ok` holds; with `prefer_bool` the result is `ok` |
| `Util.ResultModifier` | impl/_util.py:227-376 | The same two facts for every call of `result_modifier` that returns (the rebinding and `make_prefer_bool` included) |
| `Util.PreferBoolReplacesResult` | impl/_util.py:321-324 | `prefer_bool` changes only the result, which becomes `ok`: with and without it the call raises alike, and otherwise returns the same `ok` and message |
| `Util.MatchPreferBool` | impl/_util.py:321-376 | The same for the branch chain on its own |
| `Util.FlagCheckIffConflict` | impl/_util.py:327-343 | The two flag checks, after the rebinding of `single`, `none` and `single_or_none`, fire exactly on the conflicts stated on the caller's flags; they raise `IronbotException` |
| `Util.RaisesIffConflict` | impl/_util.py:321-376 | `result_modifier` raises `IronbotException` iff the caller's flags conflict |
| `Util.PassesChecks` | impl/_util.py:327-345 | Without a conflict the branch chain runs. At most one of `any`, `all`, `number`, a scalar source, and `single`/`none`, is in force then. `index` excludes `any`, `all`, `number` and `single` or `none` given alone; it may be combined with a scalar source or with the pair `single`+`none` |
| `Util.AnyMode` | impl/_util.py:350-353 | `any` succeeds iff some element is found. It returns `res` (or `ok` with `prefer_bool`) and the `any` message on failure |
| `Util.AllMode` | impl/_util.py:354-357 | `all` succeeds iff every element is found, so the empty list succeeds. It returns `res` and the `all` message on failure |
| `Util.NoneMode` | impl/_util.py:358-361 | `none` alone succeeds iff no element is found. The result is the boolean `ok`, and a failure's message carries the found count |
| `Util.SingleMode` | impl/_util.py:362-365 | `single` alone succeeds iff exactly one element is found. It then returns `res[0]` (not necessarily the found element); a failure returns `res` and the count |
| `Util.NumberMode` | impl/_util.py:366-369 | `number=n` succeeds iff exactly n elements are found; it returns `res` and the count on failure |
| `Util.IndexMode` | impl/_util.py:346-349 | `index=i >= 0` succeeds iff more than i elements are found, and returns the i-th found element, else None with the index message |
| `Util.NegativeIndexMode` | impl/_util.py:346-349 | A negative `index` counts from the end of `filtered`, as Python indexing does; below `-len` it raises `IndexError` |
| `Util.SingleOrNoneMode` | impl/_util.py:327-375 | `single` with `none`, or a scalar `src_list` alone. Nothing found succeeds iff `none` was given (result None), and fails otherwise with "Expected none, got something". One found succeeds with `res[0]` and no message. More fail with the single-or-none message |
| `Util.PlainMode` | impl/_util.py:376 | Without a quantifier and with a list or absent source, the call succeeds with `res` (or `True` with `prefer_bool`) |
| `Util.UnitFrom` | impl/_util.py:176-181 | The unit found is the first one in `COEFF` order that ends the text; no earlier unit does |
| `Util.StripUnit` | impl/_util.py:176-183 | The loop over `COEFF` finds a unit iff one ends the text. It yields that unit's coefficient and the text without the unit |
| `Util.NewDelay` | impl/_util.py:160-193 | `Delay(s)` builds, or raises, exactly what the specification `DelayValue` says: strip, forever, unit, benchmark flag, float |
| `Util.ApplyBenchmark` | impl/_util.py:185-193 | The tail of `__init__`: a leading `~` is dropped and multiplies the coefficient by `BENCHMARK`, then the number is read |
| `Util.ForeverIff` | impl/_util.py:172-175 | A Delay is forever (value None) exactly when the stripped text is `forever` in any case |
| `Util.ScaledIsFinite` | impl/_util.py:185-193 | A text read with a unit never yields forever |
| `Util.NoUnitRaises` | impl/_util.py:176-183 | A text that is not forever and ends in none of the units raises the "no time units" exception naming the stripped text |
| `Util.NonNumericRaises` | impl/_util.py:185-193 | Digits-bounded text with a unit whose number `float()` refuses raises the "should contain a float value" exception naming the text before the unit |
| `Util.BenchmarkedNonNumericRaises` | impl/_util.py:185-193 | The same after the `~` flag: the exception names the text after the flag |
| `Util.UnitAfterDigit` | impl/_util.py:176-181 | After a digit, the unit recognised is the one written, so `ms` is not mistaken for `s` |
| `Util.DelayOfUnitText` | impl/_util.py:160-193 | A text that ends in a digit and then a unit, with no blank at its start and not starting like forever, is its body before the unit, scaled by that unit |
| `Util.UnitTextScaled` | impl/_util.py:160-193 | `DelayOfUnitText` for a unit and coefficient taken from `COEFF` |
| `Util.UnflaggedScaled` | impl/_util.py:185-193 | Without the flag, the number is read as written and multiplied by the unit's coefficient |
| `Util.FlaggedScaled` | impl/_util.py:185-193 | With the flag, the number after `~` is read and multiplied by coefficient times `BENCHMARK` |
| `Util.DelayOfNumeral` | impl/_util.py:160-193 | Digits followed by a unit give `float(digits) * c` seconds for that unit's coefficient `c` |
| `Util.BenchmarkedDelayOfNumeral` | impl/_util.py:160-193 | The same digits preceded by `~` give `float(digits) * c * BENCHMARK` seconds |
| `Util.Cmp` | impl/_util.py:134-157 | A comparison yields -1, 0 or 1 |
| `Util.CmpIsOrder` | impl/_util.py:146-157 | `__cmp__` is at most 0 exactly when the left value is at most the right one, forever above every finite value, and it is 0 exactly when they are equal; a Delay and a number compare by value |
| `Util.CmpAntisymmetric` | impl/_util.py:146-157 | Swapping two Delays negates the comparison |
| `Util.ForeverIsTop` | impl/_util.py:146-157 | Forever is at least anything, and equal only to forever or None |
| `Util.CmpTransitive` | impl/_util.py:146-157 | The order on Delays is transitive |
| `Params.ParseRule` | impl/_params.py:13-19 | `parse`, used as a rule, returns its argument and never raises |
| `Params.FixedVal` | impl/_params.py:73-79 | `fixed_val(val)` returns `val` whatever its argument |
| `Params.StrToBool` | impl/_params.py:35-41 | A bool passes through. Any failure raises `TuiaParametersException` with the "Cannot cast" message naming `str(s)` |
| `Params.ParseBool` | impl/_params.py:44-60 | A bool passes through. None or an int lets `AttributeError` escape, and an unknown string raises `TuiaParametersException` with the "Expected a value of type bool" message |
| `Params.BoolTable` | impl/_params.py:32-58 | A string reads as True iff its upper case is TRUE, Y or YES, and as False iff it is FALSE, N or NO; every other string raises |
| `Params.ParseBoolIgnoresCase` | impl/_params.py:58 | Strings that agree in upper case read alike |
| `Params.ParseBoolOfStr` | impl/_params.py:32-60 | `str()` of a bool reads back as that bool, in both `parse_bool` and `str_2_bool` |
| `Params.ParseBoolAgreesWithStrToBool` | impl/_params.py:35-60 | `parse_bool` and `str_2_bool` accept exactly the same values and read them alike; where `parse_bool` raises, `str_2_bool` raises `TuiaParametersException` |
| `Params.Consumed` | impl/_params.py:89-93 | The list loses at most one element per rule, and no more than it holds |
| `Params.ParsePositional` | impl/_params.py:82-93 | The method returns (or raises) what the specification `Positional` gives. It leaves the list without the elements of the rules that returned |
| `Params.PositionalStep` | impl/_params.py:90-92 | One rule that returns puts its result first and consumes one element |
| `Params.PositionalOkIff` | impl/_params.py:82-93 | `parse_positional` returns iff the list has an element for every rule and every rule returns on its element |
| `Params.PositionalValues` | impl/_params.py:82-93 | On success the result has one entry per rule, each what that rule returned on its element, and `len(rules)` elements are deleted |
| `Params.PositionalTooShort` | impl/_params.py:91 | With fewer elements than rules, and each available one read, the call raises `IndexError` after deleting them all |
| `Params.PositionalOfParse` | impl/_params.py:82-93 | With `parse` for every rule the result is the first `len(rules)` elements |
| `Params.NonEmpty` | impl/_params.py:109 | The filter keeps the non-empty pieces and drops the empty ones, and its result is no longer than its input |
| `Params.NonEmptyAppend` | impl/_params.py:109 | The filter keeps order and repetitions: filtering a concatenation filters each part and concatenates the results |
| `Params.Words` | impl/_params.py:109 | Every word is non-empty and holds no space |
| `Params.GetAttrAndAction` | impl/_params.py:100-114 | Two words give (second, first), one word gives (it, `default_action`), and any other count gives (None, None) |
| `Params.WordsOfJoin` | impl/_params.py:109 | The words of space-free pieces joined by spaces are the non-empty pieces |
| `Params.WordsIdempotent` | impl/_params.py:109 | Rejoining the words with single spaces and splitting again gives the same words |
| `Params.AttrAndActionOfTwoWords` | impl/_params.py:109-111 | An action and an attribute written with any number of blanks around them are read back as (attribute, action) |
| `Params.ParseNamed2` | impl/_params.py:117-133 | It returns iff every known name's rule returns, and the result is a valid renaming of the keyword arguments (for any iteration order). A raised exception is one of the rules' exceptions |
| `Params.ReadName` | impl/_params.py:128-132 | One turn of the loop: it raises iff the name is known and its rule raises, with that rule's exception. Otherwise the names read so far, this one included, have all been read and renamed into the result |
| `Params.RuleRaises` | impl/_params.py:132 | One known name whose rule raises makes `parse_named2` raise, with that exception |
| `Params.NamedResultInjective` | impl/_params.py:127-133 | When no two names are renamed to the same key, each renamed key holds exactly its own rule's result |
| `Params.NamedResultIgnoresUnknown` | impl/_params.py:129-130 | Names that the table does not know change nothing |
| `Params.RobotArgs` | impl/_params.py:136-146 | The decorated keyword returns iff `parse_positional` and `parse_named2` both return. It then calls `f` with the positional results and a valid renaming of the named ones. An exception of a positional rule, or of `parse_positional` itself, passes through; otherwise the exception is one that a named rule raised |
| `Params.RobotArgsPositionals` | impl/_params.py:139-143 | The keyword receives exactly `len(pos)` positionals, each read by its rule; extra ones are dropped |
| `PyRuntime.LStripRemovesLeadingSpace` | impl/_util.py:172 | `lstrip` removes exactly the leading whitespace |
| `PyRuntime.RStripRemovesTrailingSpace` | impl/_util.py:172 | `rstrip` removes exactly the trailing whitespace |
| `PyRuntime.CaseIdempotent` | impl/_params.py:58 | Upper-casing (or lower-casing) twice is the same as once |
| `PyRuntime.CaseAbsorbs` | impl/_params.py:58 | Upper-casing after lower-casing is plain upper-casing, and the reverse, so a lookup of `s.upper()` ignores the case `s` was written in |
| `PyRuntime.Split` | impl/_params.py:109 | `split(' ')` gives at least one piece, and no piece holds the separator |
| `PyRuntime.JoinSplit` | impl/_params.py:109 | Joining the pieces of a split gives the string back |
| `PyRuntime.SplitJoin` | impl/_params.py:109 | Splitting a join of separator-free pieces gives the pieces back |
| `PyRuntime.NatToString` | impl/_util.py:361 | `%d` of a count is a decimal numeral with no leading zero, and it denotes the count |
| `PyRuntime.ParseFloatOfNat` | impl/_util.py:190 | `float(str(n)) == n` |
| `UtilDoctests.LiteralNoneMissMessage1` | impl/_util.py:361 | The `none` message for 1 found item reads "found 1 item(s)" |
| `UtilDoctests.LiteralSingleMissMessage0` | impl/_util.py:365 | The `single` message for 0 found items reads "found 0 item(s)" |
| `UtilDoctests.LiteralNumberMissMessage0` | impl/_util.py:369 | The `number` message for 0 found items reads "found 0 item(s)" |
| `UtilDoctests.LiteralNumberMissMessage1` | impl/_util.py:369 | The `number` message for 1 found item reads "found 1 item(s)" |
| `UtilDoctests.EmptyNotFoundAny` | impl/_util.py:230-231 | `[]`, not_found, any: (False, [], any message) |
| `UtilDoctests.EmptyAny` | impl/_util.py:232-233 | `[]`, any: (False, [], any message) |
| `UtilDoctests.EmptyNotFoundAll` | impl/_util.py:234-235 | `[]`, not_found, all: (True, [], None) |
| `UtilDoctests.EmptyAll` | impl/_util.py:236-237 | `[]`, all: (True, [], None) |
| `UtilDoctests.EmptyNotFoundSingle` | impl/_util.py:238-239 | `[]`, not_found, single: (False, [], single message with 0) |
| `UtilDoctests.EmptySingle` | impl/_util.py:240-241 | `[]`, single: (False, [], single message with 0) |
| `UtilDoctests.EmptyNotFoundNone` | impl/_util.py:242-243 | `[]`, not_found, none: (True, True, None) |
| `UtilDoctests.EmptyNone` | impl/_util.py:244-245 | `[]`, none: (True, True, None) |
| `UtilDoctests.EmptyNotFoundNumber0` | impl/_util.py:246-247 | `[]`, not_found, number=0: (True, [], None) |
| `UtilDoctests.EmptyNumber0` | impl/_util.py:248-249 | `[]`, number=0: (True, [], None) |
| `UtilDoctests.EmptyNumber1` | impl/_util.py:250-253 | `[]`, number=1: (False, [], number message with 0) |
| `UtilDoctests.NoneElemNotFoundAny` | impl/_util.py:254-255 | `[None]`, not_found, any: (True, [None], None) |
| `UtilDoctests.NoneElemAny` | impl/_util.py:256-257 | `[None]`, any: (False, [None], any message) |
| `UtilDoctests.NoneElemNotFoundAll` | impl/_util.py:258-259 | `[None]`, not_found, all: (True, [None], None) |
| `UtilDoctests.NoneElemAll` | impl/_util.py:260-261 | `[None]`, all: (False, [None], all message) |
| `UtilDoctests.NoneElemNotFoundSingle` | impl/_util.py:262-263 | `[None]`, not_found, single: (True, None, None), the element itself |
| `UtilDoctests.NoneElemSingle` | impl/_util.py:264-265 | `[None]`, single: (False, [None], single message with 0) |
| `UtilDoctests.NoneElemNotFoundNone` | impl/_util.py:266-267 | `[None]`, not_found, none: (False, False, none message with 1) |
| `UtilDoctests.NoneElemNone` | impl/_util.py:268-269 | `[None]`, none: (True, True, None) |
| `UtilDoctests.NoneElemNotFoundNumber0` | impl/_util.py:270-271 | `[None]`, not_found, number=0: (False, [None], number message with 1) |
| `UtilDoctests.NoneElemNumber0` | impl/_util.py:272-273 | `[None]`, number=0: (True, [None], None) |
| `UtilDoctests.NoneElemNotFoundNumber1` | impl/_util.py:274-275 | `[None]`, not_found, number=1: (True, [None], None) |
| `UtilDoctests.NoneElemNumber1` | impl/_util.py:276-277 | `[None]`, number=1: (False, [None], number message with 0) |
| `UtilDoctests.OneNotFoundAny` | impl/_util.py:278-279 | `[1]`, not_found, any: (False, [1], any message) |
| `UtilDoctests.OneNotFoundAnyPreferBool` | impl/_util.py:280-281 | `[1]`, not_found, any, prefer_bool: (False, False, any message) |
| `UtilDoctests.OneAny` | impl/_util.py:282-283 | `[1]`, any: (True, [1], None) |
| `UtilDoctests.OneNotFoundAll` | impl/_util.py:284-285 | `[1]`, not_found, all: (False, [1], all message) |
| `UtilDoctests.OneAll` | impl/_util.py:286-287 | `[1]`, all: (True, [1], None) |
| `UtilDoctests.OneNotFoundSingle` | impl/_util.py:288-289 | `[1]`, not_found, single: (False, [1], single message with 0) |
| `UtilDoctests.OneSingle` | impl/_util.py:290-291 | `[1]`, single: (True, 1, None) |
| `UtilDoctests.OneNotFoundNone` | impl/_util.py:292-293 | `[1]`, not_found, none: (True, True, None) |
| `UtilDoctests.OneNone` | impl/_util.py:294-295 | `[1]`, none: (False, False, none message with 1) |
| `UtilDoctests.OneNotFoundNumber0` | impl/_util.py:296-297 | `[1]`, not_found, number=0: (True, [1], None) |
| `UtilDoctests.OneNumber0` | impl/_util.py:298-299 | `[1]`, number=0: (False, [1], number message with 1) |
| `UtilDoctests.OneNotFoundNumber1` | impl/_util.py:300-301 | `[1]`, not_found, number=1: (False, [1], number message with 0) |
| `UtilDoctests.OneNumber1` | impl/_util.py:302-303 | `[1]`, number=1: (True, [1], None) |
| `UtilDoctests.AnyWithAllRaises` | impl/_util.py:304-307 | `all` with `any` raises `IronbotException` |
| `UtilDoctests.EmptySingleNone` | impl/_util.py:308-309 | `[]`, single, none: (True, None, None) |
| `UtilDoctests.OneSingleNone` | impl/_util.py:310-311 | `[1]`, single, none: (True, 1, None) |
| `UtilDoctests.OneScalarSrc` | impl/_util.py:312-313 | `[1]`, src_list=1: (True, 1, None) |
| `UtilDoctests.OneListSrc` | impl/_util.py:314-315 | `[1]`, src_list=[1]: (True, [1], None) |
| `UtilDoctests.OneScalarSrcSingle` | impl/_util.py:316-317 | `[1]`, src_list=1, single: (True, 1, None) |
| `UtilDoctests.OneScalarSrcIndex0` | impl/_util.py:318-319 | `[1]`, src_list=1, index=0: (True, 1, None) |
| `UtilDoctests.Ten` | impl/_util.py:190 | `float('10')` is 10 |
| `UtilDoctests.Refused` | impl/_util.py:190 | `float` refuses `'10n'` and `'a10'` |
| `UtilDoctests.DelayTenSeconds` | impl/_util.py:163 | `Delay(' 10s ')` is 10 seconds |
| `UtilDoctests.DelayTenMilliseconds` | impl/_util.py:164 | `Delay('10ms')` is 0.01 seconds |
| `UtilDoctests.DelayNanosecondsRefused` | impl/_util.py:165 | `Delay('10ns')` raises `IronbotException` (the `s` is taken as the unit and `10n` is no float) |
| `UtilDoctests.DelayLetterRefused` | impl/_util.py:166 | `Delay('a10s')` raises `IronbotException` |
| `UtilDoctests.DelayBenchmarkedTenSeconds` | impl/_util.py:167 | `Delay(' ~10s ')` is 20 seconds with `BENCHMARK` 2 |
| `UtilDoctests.DelayBenchmarkedTenMilliseconds` | impl/_util.py:168 | `Delay('~10ms')` is 0.02 seconds with `BENCHMARK` 2 |
| `UtilDoctests.DelayBenchmarkedNanosecondsRefused` | impl/_util.py:169 | `Delay('~10ns')` raises `IronbotException` |
| `UtilDoctests.DelayBenchmarkedLetterRefused` | impl/_util.py:170 | `Delay('~a10s')` raises `IronbotException` |
| `UtilDoctests.DelayForever` | impl/_util.py:171 | `Delay('forever').value` is None |
| `UtilDoctests.DelayComparison` | impl/_util.py:136-145 | The comparisons of forever, 10s and 11s with each other, with None and with the numbers 9, 10 and 11 come out as the docstring says; a reflected comparison such as `9 < Delay('10s')` is `Cmp` with the operands swapped |
| `ParamsDoctests.ParseList` | impl/_params.py:15-17 | `parse([1, 2, 3])` is `[1, 2, 3]` |
| `ParamsDoctests.ParseBoolFalse` | impl/_params.py:46-47 | `parse_bool('fAlSe')` is False |
| `ParamsDoctests.ParseBoolTrue` | impl/_params.py:48-49 | `parse_bool('TrUe')` is True |
| `ParamsDoctests.ParseBoolRefused` | impl/_params.py:50-52 | `parse_bool('TrAlSe')` raises `TuiaParametersException` |
| `ParamsDoctests.FixedThree` | impl/_params.py:75-77 | `fixed_val(3)(p)` is 3 |
| `ParamsDoctests.PositionalThree` | impl/_params.py:84-87 | The rules (parse, parse, parse_bool) read `['a', 'b', 'YES']` as `['a', 'b', True]` and consume all three elements |
| `ParamsDoctests.PositionalExample` | impl/_params.py:84-87 | On the list object itself: the result is `['a', 'b', True]` and the list is left empty |
| `ParamsDoctests.AttrAndActionTwoWords` | impl/_params.py:102-103 | `get_attr_and_action(' b  j  ', 'q')` is `('j', 'b')` |
| `ParamsDoctests.AttrAndActionThreeWords` | impl/_params.py:104-105 | `get_attr_and_action(' b  j  r', 'q')` is `(None, None)` |
| `ParamsDoctests.AttrAndActionOneWord` | impl/_params.py:106-107 | `get_attr_and_action(' b  ', 'q')` is `('b', 'q')` |
| `ParamsDoctests.NamedZero` | impl/_params.py:119 | Every result of reading keywords with `pd` holds 0 under each key |
| `ParamsDoctests.NamedKeys` | impl/_params.py:119-125 | `pd` renames `{'a'}` to `{'a1'}` and `{'a', 'b'}` to `{'a1', 'b1'}` |
| `ParamsDoctests.NamedExample` | impl/_params.py:119-125 | `parse_named2(pd, {'a': None})` is `{'a1': 0}` and `parse_named2(pd, {'a': None, 'b': 1})` is `{'a1': 0, 'b1': 0}` |

## Left out

- The waiting machinery of `impl/_util.py` is not modelled: `waiting_iterator`, the `Monitoring`/`ErrorMonitor` classes and `set`, `setup` and `stop_monitoring`. It is driven by clocks, sleeping and callbacks into UI code.
- `Delay.do_benchmarking` and the timing helper are not modelled, because they time an external process. Their only effect on the model is the value of `BENCHMARK`, which is the parameter `benchmark`.
- `pop_menu_path` is not modelled. It reads `parse(params)`, the whole list, which is never the string `'<END>'`, and it never shortens the list; so on any non-empty list it does not terminate.
- `parse_re` is not modelled, because it compiles a regular expression.
- `UserError`, `assert_raises` and `get_function` are test scaffolding, and are not modelled.
- `pywinauto_core.py` and `bot.py` call these helpers from the UI side, and are not part of this model.
- Floating point: `float()` is a parameter, and `ParseFloat` covers only finite decimal numerals (no `inf`, `nan` or underscores). Products are exact reals, with no rounding. The `fabs(...) < 0.00001` tolerance of the Delay doctests is stated as equality.
- `PyRuntime.CaseIdempotent`, `PyRuntime.CaseAbsorbs`, `PyRuntime.LStripRemovesLeadingSpace`, `PyRuntime.RStripRemovesTrailingSpace`: case mapping and whitespace are ASCII only, as for the byte strings of Python 2. Unicode strings are not modelled.
- `Util.Match`: the Python `None` that `result_modifier` returns as its result is the constructor `Nothing`; a `None` element of `res` is an element like any other.
- `Util.Flags`: the model sees only whether `src_list` is absent, a list or something else, because that is all the function looks at.
- `Util.Delay`: `Delay` is a value. Its only field is assigned once, in `__init__`. It is compared through `Cmp`, not Python's `==`/`<` protocol. The reflected comparisons (`11 > Delay('10s')`) are the same calls with the operands swapped.
- `Params.Parse`: it has no contract of its own, because it is the identity. What it promises is stated by `Params.ParseRule` and `Params.PositionalOfParse`.
- `Params.ParseNamed2`: Python 2 dictionaries iterate in an unspecified order. The method may visit the names in any order, and its contract holds for all of them; which write wins a key that two names rename to is left open. A table entry that is falsy (such as `None`) is not modelled; every entry is a (name, rule) pair.
- `Params.RobotArgs`: `f` is any function of the positional results and the named map. A `TypeError` it would raise on unexpected keywords is not modelled, and neither is the copying of `__doc__`.
- `Params.StrToBool`: `'%s' % s` on a tuple argument, which raises `TypeError` in Python, is not modelled, because the values here hold no tuples.
- Quirk that the model keeps: `single` with `none` and an `index` is not refused. The pair is folded into the single-or-none mode, which the `index` check does not count, so `index` then wins.
- Quirk that the model keeps: in the single-or-none branch, one found element always succeeds. The "Expected single result" message is unreachable there.
