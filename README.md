# Python callables: last-name sort, function builders and the race car

A Dafny model of the two pieces of the Python-callables notes that hold
behaviour worth stating:

- `notes/python-notes/files/anonymous_functions.py`: `compute(number)`; the
  in-place sort of a list of full names by
  `name.split(" ")[-1].lower()`; and `build_quadratic_function(a, b, c)`,
  which returns a closure computing `a*x**2 + b*x + c`.
- `oop.py`: the `RaceCar` class, whose constructor sets `color`,
  `fuel_remaining` and `laps = 0` and then copies every keyword argument
  onto the instance with `setattr`, and whose `run_lap(length)` burns
  `length * 0.125` fuel and counts one lap.

Files:

- `options.dfy` (module `Options`): an optional value; `None` marks a
  raised error or the absence of a result.
- `py_str.dfy` (module `PyStr`): the Python string operations the sort key
  uses. `s.split(" ")` is `Split`, `" ".join` is `Join`, `s.lower()` is
  `Lower` (ASCII letters only) and `a <= b` on `str` is `LexLe`.
- `key_sort.dfy` (module `KeySort`): `list.sort(key=...)` for any element
  type and any key function returning `str`. The sort as a function,
  `SortByKey`, is a stable insertion sort. The in-place method `Sort` on an
  array is proved to leave exactly that list.
- `anonymous_functions.dfy` (module `AnonymousFunctions`): `Compute`; the
  sort key `LastNameKey`; the method `SortByLastName`, which sorts an
  `array<string>` with `Sort` under that key; and the closure as the
  datatype `QuadraticFunction` with its `Call`.
- `race_car.dfy` (module `RaceCars`): attribute values (`int`, `float`,
  `str`), the pure `Lap` step, the construction functions, and the class
  `RaceCar`, with fields `color`, `fuelRemaining`, `laps` and a map
  `extras` for the other keyword attributes. Attribute reads fall back to
  the class, and `setattr` on the class's data descriptors (`__class__`, `__dict__`,
  `__weakref__`) raises for every value the model can hold.

The sort is modelled as insertion sort, but its contract does not depend on
the algorithm. `SortIsTheStableSort` proves that exactly one arrangement of
a list is both in key order and keeps the names of each key in their
original order. Any stable sort, Python's included, therefore produces
`SortByKey(s, key)`.

Where the code differs from a first reading of it, the model follows the code:

- The key is the text after the last single space (`split(" ")`), not after
  the last run of whitespace. Tabs do not separate words. A name that ends
  in a space has the empty key.
- `laps` is not always a non-negative integer. A keyword argument named
  `laps` replaces the initial 0 with any value, and `run_lap` then fails or
  counts from that value.
- Keyword arguments are not free-form. `__class__`, `__dict__` and
  `__weakref__` make `__init__` raise, and a keyword named `run_lap` hides
  the method, so calling it then raises `TypeError`.

## Model

| member | source | states |
|---|---|---|
| `AnonymousFunctions.Compute` | notes/python-notes/files/anonymous_functions.py:2-3 | the result is odd, and `(r - 1) / 2` gives back the number |
| `AnonymousFunctions.ComputeOfFour` | notes/python-notes/files/anonymous_functions.py:6 | `compute(4) == 9` |
| `PyStr.Split` | notes/python-notes/files/anonymous_functions.py:19 | `s.split(" ")` always yields at least one piece; `JoinSplit`, `SplitPieces`, `LastPieceIsTail` and `LastPieceAt` state the rest of its contract |
| `PyStr.JoinSplit` | notes/python-notes/files/anonymous_functions.py:19 | joining the pieces of `split(" ")` with a single space restores the name |
| `PyStr.SplitPieces` | notes/python-notes/files/anonymous_functions.py:19 | no piece of `split(" ")` contains a space, and there is one more piece than there are spaces |
| `PyStr.LastPieceStep` | notes/python-notes/files/anonymous_functions.py:19 | the first character belongs to `split(" ")[-1]` exactly when it is not a space and no space follows it |
| `PyStr.LastPiece` | notes/python-notes/files/anonymous_functions.py:19 | `s.split(" ")[-1]`; `LastPieceIsTail`, `LastPieceAt` and `LastPieceStep` state its contract |
| `PyStr.LastPieceIsTail` | notes/python-notes/files/anonymous_functions.py:19 | `split(" ")[-1]` is a suffix of the name that holds no space and starts at the beginning of the name or right after a space |
| `PyStr.LastPieceAt` | notes/python-notes/files/anonymous_functions.py:19 | conversely, a space-free suffix that starts at the beginning or after a space is `split(" ")[-1]` |
| `PyStr.LastPieceOfOneWord` | notes/python-notes/files/anonymous_functions.py:19 | a name without a space is its own last piece |
| `PyStr.LastPieceAfterTrailingSpace` | notes/python-notes/files/anonymous_functions.py:19 | a name ending in a space has `""` as its last piece, because `split(" ")` yields a trailing empty piece |
| `PyStr.Lower` | notes/python-notes/files/anonymous_functions.py:19 | `lower()` keeps the length and maps each character on its own: `A`..`Z` to `a`..`z`, every other character to itself |
| `PyStr.LowerIsLowerCase` | notes/python-notes/files/anonymous_functions.py:19 | the lower-cased key has no upper-case letter, and lower-casing twice is lower-casing once |
| `PyStr.LowerIgnoresCase` | notes/python-notes/files/anonymous_functions.py:19 | names whose last words differ only in letter case get the same key |
| `PyStr.LexLe` | notes/python-notes/files/anonymous_functions.py:19 | `a <= b` on `str`; `LexLeReflexive`, `LexLeTotal`, `LexLeAntisymmetric` and `LexLeTransitive` prove it a total order |
| `PyStr.LexLeReflexive` | notes/python-notes/files/anonymous_functions.py:19 | every key compares `<=` to itself |
| `PyStr.LexLeTotal` | notes/python-notes/files/anonymous_functions.py:19 | any two keys are comparable |
| `PyStr.LexLeAntisymmetric` | notes/python-notes/files/anonymous_functions.py:19 | two keys that are each `<=` the other are equal |
| `PyStr.LexLeTransitive` | notes/python-notes/files/anonymous_functions.py:19 | the comparison of keys is transitive |
| `AnonymousFunctions.LastNameKey` | notes/python-notes/files/anonymous_functions.py:19 | the key lambda `name.split(" ")[-1].lower()`; `LastNameKeyIsLoweredTail`, `LastNameKeyAfterLastSpace` and `LastNameKeyEdgeCases` state its contract |
| `AnonymousFunctions.LastNameKeyEdgeCases` | notes/python-notes/files/anonymous_functions.py:19 | a name without a space is keyed by the whole name lower-cased; a name ending in a space is keyed by `""` |
| `AnonymousFunctions.LastNameKeyIsLoweredTail` | notes/python-notes/files/anonymous_functions.py:19 | the key is the lower-cased text after the last space of the name |
| `AnonymousFunctions.LastNameKeyAfterLastSpace` | notes/python-notes/files/anonymous_functions.py:19 | conversely, the lower-cased text after the last space is the key |
| `KeySort.SortByKey` | notes/python-notes/files/anonymous_functions.py:19 | what `list.sort(key=...)` leaves; `SortPermutes`, `SortSorted`, `SortStable` and `SortIsTheStableSort` state its contract |
| `KeySort.InsertPosition` | notes/python-notes/files/anonymous_functions.py:19 | one insertion step places the name right after the last name whose key is not greater than its own |
| `KeySort.InsertPermutes` | notes/python-notes/files/anonymous_functions.py:19 | one insertion step adds exactly that name to the multiset of names |
| `KeySort.SortPermutes` | notes/python-notes/files/anonymous_functions.py:19 | after the sort the list holds the same names, each as often as before, and has the same length |
| `KeySort.InsertSorted` | notes/python-notes/files/anonymous_functions.py:19 | inserting into a list in key order keeps it in key order |
| `KeySort.SortSorted` | notes/python-notes/files/anonymous_functions.py:19 | after the sort, adjacent names are in non-decreasing key order |
| `KeySort.InsertKeepsKeyOrder` | notes/python-notes/files/anonymous_functions.py:19 | an inserted name lands after every name with an equal key, so each key's names keep their order |
| `KeySort.SortStable` | notes/python-notes/files/anonymous_functions.py:19 | the sort is stable: for every key, the names with that key appear in the same relative order as before |
| `KeySort.SortKeepsSorted` | notes/python-notes/files/anonymous_functions.py:19 | sorting a list already in key order leaves it unchanged |
| `KeySort.SortIdempotent` | notes/python-notes/files/anonymous_functions.py:19 | sorting twice gives the same list as sorting once |
| `KeySort.SortTwo` | notes/python-notes/files/anonymous_functions.py:19 | two elements out of key order swap places |
| `KeySort.SortThree` | notes/python-notes/files/anonymous_functions.py:19 | of three elements, the last moves ahead of a greater key but stays behind a key not greater than its own |
| `KeySort.WithKeyMembers` | notes/python-notes/files/anonymous_functions.py:19 | a name belongs to a key's subsequence exactly when it is in the list and has that key |
| `KeySort.SortedLastIsGreatest` | notes/python-notes/files/anonymous_functions.py:19 | in a list in key order, no key exceeds the key of the last name |
| `KeySort.StableSortedUnique` | notes/python-notes/files/anonymous_functions.py:19 | two lists in key order whose names of every key appear in the same order are equal |
| `KeySort.SortIsTheStableSort` | notes/python-notes/files/anonymous_functions.py:19 | any list in key order that keeps each key's names in their original order is the sort's result |
| `KeySort.InsertAt` | notes/python-notes/files/anonymous_functions.py:19 | one pass in place: the prefix plus the next name becomes the insertion of that name into the prefix; the rest of the array is untouched |
| `KeySort.Sort` | notes/python-notes/files/anonymous_functions.py:19 | `list.sort(key=...)` in place leaves `SortByKey` of the old contents under that key: a permutation of them, in key order |
| `AnonymousFunctions.SortByLastName` | notes/python-notes/files/anonymous_functions.py:19 | sorting the names in place by `split(" ")[-1].lower()` leaves `SortByKey` of the old names under that key: a permutation of them, in last-name order |
| `AnonymousFunctions.SampleKeys` | notes/python-notes/files/anonymous_functions.py:19 | the keys of "Bob Zed", "Ann Lee", "Cy lee" and "Bob LEE" are "zed", "lee", "lee" and "lee" |
| `AnonymousFunctions.SortTwoNames` | notes/python-notes/files/anonymous_functions.py:19 | `["Bob Zed", "Ann Lee"]` sorts to `["Ann Lee", "Bob Zed"]` |
| `AnonymousFunctions.SortTiedNames` | notes/python-notes/files/anonymous_functions.py:19 | `["Cy lee", "Bob Zed", "Bob LEE"]` sorts to `["Cy lee", "Bob LEE", "Bob Zed"]`: last names equal up to letter case tie and keep their order |
| `AnonymousFunctions.BuildQuadraticFunction` | notes/python-notes/files/anonymous_functions.py:25-28 | the returned function computes `a*x*x + b*x + c` for every `x` |
| `AnonymousFunctions.QuadraticFunction.Call` | notes/python-notes/files/anonymous_functions.py:28 | the returned lambda `a*x**2 + b*x + c`; `BuildQuadraticFunction`, `SamplesDetermineFunction` and `SecondDifference` state its contract |
| `AnonymousFunctions.SamplesDetermineFunction` | notes/python-notes/files/anonymous_functions.py:25-28 | the closure keeps its coefficients: they can be recovered from its values at 0, 1 and 2 |
| `AnonymousFunctions.SecondDifference` | notes/python-notes/files/anonymous_functions.py:28 | `f(x+1) - 2 f(x) + f(x-1) == 2a` at every `x` |
| `AnonymousFunctions.QuadraticExample` | notes/python-notes/files/anonymous_functions.py:31-34 | with coefficients `(2, 3, -5)`: `f(0) == -5`, `f(1) == 0`, `f(2) == 9` |
| `RaceCars.SubtractFloat` | oop.py:11 | a number minus a float is a float with the difference; a `str` raises `TypeError` |
| `RaceCars.AddOne` | oop.py:12 | `+ 1` adds one and keeps an `int` an `int`; a `str` raises `TypeError` |
| `RaceCars.Lap` | oop.py:10-12 | on numbers, fuel becomes a `float` `length / 8` lower and laps grow by 1 keeping their type, with no check on either; a non-numeric fuel raises with nothing changed; a non-numeric lap count raises after the fuel has been burnt and turned into a `float` |
| `RaceCars.Laps` | oop.py:10-12 | `n` calls of `run_lap` in a row, stopping at the first that raises; `LapsAccumulate` states its contract |
| `RaceCars.LapsAccumulate` | oop.py:10-12 | after `n` laps of the same length, laps have grown by `n` and fuel has dropped by `n * length / 8`, and after at least one lap the fuel is a `float` |
| `RaceCars.Defaults` | oop.py:3-5 | the three attributes set before the keyword loop; `ConstructedAttributes` and the constructor state their values |
| `RaceCars.SetAll` | oop.py:7-8 | the `setattr` loop on the attribute dictionary; `SetAllLookup` states its contract |
| `RaceCars.InitialAttributes` | oop.py:2-8 | the attributes after `__init__`, or none when it raises; `ConstructedAttributes` states its contract |
| `RaceCars.SetAllLookup` | oop.py:7-8 | after the `setattr` loop each keyword is an attribute equal to its value, and every other attribute is unchanged |
| `RaceCars.ConstructedAttributes` | oop.py:2-8 | construction raises exactly when a keyword is `__class__`, `__dict__` or `__weakref__`; otherwise `color` and `fuel_remaining` equal the arguments, `laps` is 0 unless a `laps` keyword replaced it, every keyword is an attribute equal to its value, and there are no other attributes |
| `RaceCars.Settable` | oop.py:8 | the names `setattr` accepts for an `int`, `float` or `str` value; `RaceCar.SetAttr` states `raised <==> !Settable(name)` and `ConstructedAttributes` that construction raises on the others |
| `RaceCars.IsClassAttribute` | oop.py:1-12 | the names `getattr` finds on the class, as in Python 3.11 and 3.12; `RaceCar.GetAttr` states when a read reaches them |
| `RaceCars.RaceCar.Attributes` | oop.py:3-8 | the instance dictionary `vars(car)`; `RaceCar.Create` and `ConstructedAttributes` state what `__init__` puts in it, `SetAttr` and `RunLap` how it changes |
| `RaceCars.RaceCar.GetAttr` | oop.py:1-12 | reading `__class__`, `__dict__` or `__weakref__` always reaches the class; any other name yields the instance's own attribute when there is one, else the class's (`run_lap` and the special attributes inherited from `object`), else `AttributeError`; a read that reaches the class names a class attribute |
| `RaceCars.RaceCar.SetAttr` | oop.py:8 | `setattr` raises, changing nothing, exactly on `__class__`, `__dict__` and `__weakref__`; otherwise it updates exactly that attribute |
| `RaceCars.RaceCar.constructor` | oop.py:3-5 | the new car has exactly `color`, `fuel_remaining` and `laps = 0` |
| `RaceCars.RaceCar.Create` | oop.py:2-8 | `RaceCar(color, fuel_remaining, **kwargs)` yields no car exactly when `__init__` raises, and otherwise a new car whose attributes are the defaults overridden by the keyword arguments |
| `RaceCars.RaceCar.RunLap` | oop.py:10-12 | fuel and laps become what `Lap` gives, and the colour and extra attributes do not change; when a `run_lap` keyword hides the method, the call raises and changes nothing |
| `RaceCars.ExampleRace` | oop.py:1-12 | a car with 10 fuel and `speed=200`: fuel is the float 9.5 and laps 1 after one lap of length 4, fuel 8.5 after three with 3 laps, and `speed` reads 200 |
| `RaceCars.ExampleShadowing` | oop.py:1-12 | a `__class__=5` keyword makes construction raise; a `run_lap=1` keyword makes `car.run_lap` read 1, and calling it raises |

## Left out

- `decorators.py` and the decorator in `notes/python-notes/files/decorators.py`: they return Python's built-in `ascii()` of a value. Its quoting and escaping rules are not part of this model.
- `CallCount` in `notes/python-notes/files/decorators.py`: its second `__init__` replaces the first, so `@CallCount` fails when the module loads, on an attribute that was never set. There is no working counter to model.
- Every `print` call: console output.
- `PyStr.Lower`: lower-cases ASCII letters only, not the full Unicode case mapping of `str.lower()`.
- `AnonymousFunctions.Compute`: integers only. Python would also accept a float.
- `AnonymousFunctions.BuildQuadraticFunction`: integer coefficients and arguments only. Python would also accept floats.
- The nine-author list at `anonymous_functions.py:14-16` is not sorted in the model; short lists of sample names are (`SortTwoNames`, `SortTiedNames`), and the sort's properties are proved for every list.
- `RaceCars.RaceCar.RunLap`: `length` is a number. A `str` length raises `TypeError` before anything changes; that case is not modelled.
- Python floats are modelled as exact reals, so no arithmetic in `run_lap` rounds or overflows. In Python an `int` length or fuel is first converted to a `float`, which rounds above 2**53 and raises `OverflowError` beyond about 1.8e308, and the subtraction itself may round.
- Attribute values other than `int`, `float` and `str` (for example `bool`, `None`, objects) are not modelled.
- `RaceCars.RaceCar.Create` requires `ValidKwargs`. Python itself rejects a call that repeats a keyword or passes `self`, `color` or `fuel_remaining` as a keyword, before `__init__` runs.
- Python's `list.sort` algorithm (Timsort) is not modelled step by step. Only the list it leaves is modelled, which `SortIsTheStableSort` shows any stable sort produces.
- `RaceCars.RaceCar.GetAttr`: what the class provides under a name (a bound method, the module name, `None` for `__doc__`) is reported as `FromClass`, not as a value. The list of inherited names is that of Python 3.11 and 3.12; from 3.13 on, every class also has `__static_attributes__` and `__firstlineno__`, which the model reports as `AttributeError`.
- `RaceCars.RaceCar.SetAttr`: assigning a class to `__class__` or a dictionary to `__dict__`, which Python accepts, cannot happen because no `Value` is a class or a dictionary.
