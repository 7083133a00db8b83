# JsArray in Dafny

A verified model of `JsArray`, a PHP class that offers JavaScript-style array
methods (`map`, `filter`, `reduce`, `flat`, `flatMap`, `concat`, `find`,
`findIndex`, `includes`, `some`) over a PHP array. A PHP array is an
insertion-ordered map whose keys are integers or strings and need not be
0..n-1. Each method walks the wrapped array once with `foreach` and builds a
fresh result; the wrapped array is never changed.

Files:

- `php_array.dfy` (module `PhpArray`): the PHP array itself. An array is a
  `seq<Entry>` of `key => value` pairs with distinct keys (`DistinctKeys`),
  in iteration order. `Value` is `null`, bool, int, string or a nested raw
  array. `Put` is `$a[$k] = $v` (an existing key is overwritten in place, a new
  one is appended), `Push` is `$a[] = $v`, which appends under `NextIndex`:
  one past the largest non-negative integer key, or 0.
- `array_spec.dfy` (module `ArraySpec`): reference functions that say what
  each operation computes (`Mapped`, `Filtered`, `FoldLeft`/`Reduced`,
  `FlatValues`/`Flattened`, `Concatenated`, `FirstMatch`) and the lemmas that
  state the promised properties of them.
- `js_array.dfy` (module `JsArrays`): class `JsArray` with fields `items` and
  `length` and the invariant `Valid()` (distinct keys, `length == |items|`).
  Each method whose source has a `foreach` is a loop mirroring it. `Map`,
  `Filter`, `Reduce`, `Flat`, `Concat`, `Find` and `FindIndex` are proved
  equal to their reference functions; `Includes` and `Some` are proved
  equivalent to an `exists` over the entries. None has a `modifies` clause,
  so none can change the object it is called on. Callbacks are Dafny function values of
  `(value, key)`, and `(accumulator, value, key)` for `reduce`.
- `scenarios.dfy` (module `Scenarios`): worked examples proved about the
  reference functions on small literal arrays.

`findIndex` returns a PHP value: `VInt(position)` or `VInt(-1)` on a list, and
otherwise the matching key (`VInt`/`VStr`) or `VNull`. On a list the position
it reports is the matching key. `array_search`'s `false` is kept as
`VBool(false)`, and the contract shows that it never occurs.
`reduce`'s `$initial = null` is modelled as a parameter with default `VNull`.
As in the code, an explicit `null` initial value behaves the same as an
omitted one.

## Model

| member | source | states |
|---|---|---|
| `PhpArray.Put` | src/JsArray.php:30 | `$a[$k] = $v`: a new key is appended at the end; an existing key keeps its position and takes the new value; every other entry is unchanged |
| `PhpArray.KeyValue` | src/JsArray.php:112 | a key handed back as a value is the integer or string it was, so the key can be read back from it |
| `PhpArray.Keys` | src/JsArray.php:123 | `array_keys` lists the keys in iteration order, and a key is listed exactly when the array has it |
| `PhpArray.NextIndex` | src/JsArray.php:71 | the key `$a[] = $v` uses lies above the most recently inserted key when that key is a non-negative integer |
| `PhpArray.NextIndexBounds` | src/JsArray.php:71 | the key `$a[] = $v` uses lies above every non-negative integer key, and is 0 or one past an existing key |
| `PhpArray.Push` | src/JsArray.php:74 | `$a[] = $v` appends `v` under a key not yet in the array; the old entries are a prefix; distinct keys stay distinct; the next free index moves up by one |
| `PhpArray.NextIndexOfList` | src/JsArray.php:91 | on an array with keys 0..n-1, `$a[]` appends under key n |
| `PhpArray.NextIndexAfterRun` | src/JsArray.php:89-93 | a run of consecutive keys starting at the next free index moves that index up by the run's length |
| `PhpArray.PushRunStep` | src/JsArray.php:70-72 | one more `$result[] = $item` extends a run of consecutive keys that started at the next free index by that item |
| `JsArrays.JsArray.constructor` | src/JsArray.php:10-14 | wraps the array unchanged and sets `length` to its count |
| `JsArrays.JsArray.From` | src/JsArray.php:16-19 | `from` wraps the given array as it is |
| `JsArrays.JsArray.Of` | src/JsArray.php:21-24 | `of` builds a list: keys 0..n-1 holding the arguments in order |
| `ArraySpec.Mapped` | src/JsArray.php:26-33 | `map` gives the same keys in the same order, with each value replaced by `fn(value, key)` and the length unchanged |
| `ArraySpec.MappedKeys` | src/JsArray.php:30 | the key sequence of `map`'s result is the source's, so its keys stay distinct |
| `JsArrays.JsArray.Map` | src/JsArray.php:26-33 | the loop builds exactly `Mapped(items, fn)`; the result is a valid JsArray of the same `length` |
| `ArraySpec.Filtered` | src/JsArray.php:35-45 | `filter` keeps an in-order subsequence of the source entries with their original keys; an entry is kept exactly when the test holds; the length can only shrink |
| `ArraySpec.FilteredSnoc` | src/JsArray.php:38-41 | one more source entry adds that entry at the end exactly when it passes the test |
| `ArraySpec.FilteredStep` | src/JsArray.php:38-41 | in one round of the loop the entries kept so far have distinct keys, and a passing entry goes in through `$result[$key] = $value`, which appends it because its key is new |
| `ArraySpec.SubsequenceDistinct` | src/JsArray.php:40 | the kept entries come from the source, so their keys stay distinct |
| `JsArrays.JsArray.Filter` | src/JsArray.php:35-45 | the loop builds exactly `Filtered(items, fn)`; the result is a valid JsArray no longer than the source |
| `ArraySpec.FoldLeftSnoc` | src/JsArray.php:58 | folding one more entry applies `fn(accumulator, value, key)` to the fold so far |
| `ArraySpec.FoldLeftAppend` | src/JsArray.php:52-60 | folding a concatenation continues the fold of the first part over the second |
| `ArraySpec.Reduced` | src/JsArray.php:47-63 | an empty array reduces to the initial value, null when none is given; a one-entry array with no initial value reduces to that entry's value without calling `fn` |
| `ArraySpec.ReducedSnoc` | src/JsArray.php:52-60 | with no initial value the first entry seeds the accumulator; every later entry, and every entry when an initial value is given, goes through `fn` |
| `ArraySpec.ReducedWithoutInitial` | src/JsArray.php:53-56 | without an initial value, `reduce` is the left fold seeded with the first value, and an array split in two folds on from the first part's result |
| `JsArrays.JsArray.Reduce` | src/JsArray.php:47-63 | the loop with its `first` flag returns `Reduced(items, fn, initial)`: the left fold from `initial`; from the first value when `initial` is null; null for an empty array with no initial value |
| `ArraySpec.Spread` | src/JsArray.php:69-75 | a nested array contributes its values in order; any other value contributes itself |
| `ArraySpec.Flattened` | src/JsArray.php:65-78 | `flat` gives a list (keys exactly 0..n-1, distinct) whose values are the source values with each nested array replaced by its values, one level deep |
| `ArraySpec.FlatValuesSnoc` | src/JsArray.php:68-76 | one more source value appends its nested values, or itself when it is not an array |
| `ArraySpec.FlattenedStep` | src/JsArray.php:68-76 | one more source value appends its spread under the next consecutive keys |
| `ArraySpec.FlattenedLength` | src/JsArray.php:65-78 | the length of `flat` is the sum of the nested arrays' lengths plus the number of other values |
| `ArraySpec.FlattenedWithoutNesting` | src/JsArray.php:73-75 | with no nested array, `flat` gives the source values in order under keys 0..n-1 |
| `JsArrays.JsArray.Flat` | src/JsArray.php:65-78 | the nested loop builds exactly `Flattened(items)`; the result is a list whose `length` is the nested lengths plus the count of other values |
| `ArraySpec.FlatMapValues` | src/JsArray.php:80-83 | the values of `flat(map(fn))` are `fn(value, key)` for each entry, with each array result spread |
| `JsArrays.JsArray.FlatMap` | src/JsArray.php:80-83 | `flatMap(fn)` is `Flattened(Mapped(items, fn))`, i.e. `flat()` applied to `map(fn)` |
| `JsArrays.PushAll` | src/JsArray.php:70-72 | pushing each value of an array appends them all, in order, under consecutive keys from the next free index, which moves up by their number |
| `ArraySpec.AllValuesSnoc` | src/JsArray.php:89-93 | one more argument array appends its values after those of the earlier arguments |
| `ArraySpec.AllValuesStep` | src/JsArray.php:89-93 | one more argument array appends its values under the next consecutive keys |
| `ArraySpec.ConcatenatedStep` | src/JsArray.php:89-93 | one round of the outer loop: pushing argument k's values onto the result for the first k arguments gives the result for the first k + 1 |
| `ArraySpec.AllValuesLength` | src/JsArray.php:89-93 | the number of appended values is the sum of the argument lengths |
| `ArraySpec.Concatenated` | src/JsArray.php:85-96 | `concat` keeps the source entries, keys and values, as a prefix, then puts the argument values under consecutive keys from the source's next free index |
| `ArraySpec.ConcatenatedDistinct` | src/JsArray.php:91 | the appended keys are all new, so the result's keys are distinct |
| `ArraySpec.ConcatenatedShape` | src/JsArray.php:85-96 | the result length is the source length plus the argument lengths; its values are the source values then the arguments' values; a list source gives a list result |
| `JsArrays.JsArray.Concat` | src/JsArray.php:85-96 | the nested loop builds exactly `Concatenated`; the source entries are a prefix; `length` adds up; a list stays a list |
| `ArraySpec.FirstMatch` | src/JsArray.php:98-106 | the position of the earliest entry passing the test: it passes, and no earlier entry does; `|items|` when none passes |
| `JsArrays.JsArray.Find` | src/JsArray.php:98-106 | returns the value of the earliest entry passing the test, or null when none does |
| `JsArrays.Search` | src/JsArray.php:112 | `array_search` over the keys: the first position holding the key, or nothing when the key is absent |
| `JsArrays.JsArray.IsNumericArray` | src/JsArray.php:118-124 | true exactly when the keys are 0..n-1 in order; the empty array counts |
| `JsArrays.JsArray.FindIndex` | src/JsArray.php:108-116 | on a list: the position of the first match, which is its key, or -1; otherwise: the first matching key, or null |
| `JsArrays.JsArray.Includes` | src/JsArray.php:126-134 | true exactly when some value is identical to the probe |
| `JsArrays.JsArray.Some` | src/JsArray.php:136-144 | true exactly when some entry passes the test |
| `Scenarios.FlatOfNested` | src/JsArray.php:65-78 | `of(1, [2, 3], 4)->flat()` is the list `[1, 2, 3, 4]` |
| `Scenarios.ReduceSum` | src/JsArray.php:47-63 | summing `[1, 2, 3]` with no initial value gives 6; on `[]` it gives null |
| `Scenarios.ConcatLists` | src/JsArray.php:85-96 | `['a', 'b']` concatenated with `['c']` is the list `['a', 'b', 'c']` |
| `Scenarios.FindIndexOnList` | src/JsArray.php:108-116 | on `[1, 2, 3]` the first value equal to 2 is at position 1; with no match the position is one past the last entry |

## Left out

- PHP key coercion: numeric strings such as `"1"` becoming integer keys, and bool or float keys. Keys are `IntK` or `StrK`, and an array's keys are assumed distinct.
- Loose truthiness of callback results. Callbacks return `bool` (`filter`, `find`, `findIndex`, `some`).
- Callback side effects and exceptions, and the `$this` third argument passed to callbacks. Callbacks are pure functions of `(value, key)`.
- Floats and objects as values, and `===` identity on objects. Values are compared structurally, which is `===` for null, bool, int, string and nested arrays.
- Nested `JsArray` objects inside `flat`. `is_array` does not flatten them, and the model has no object value.
- `array_search`'s loose comparison. It is modelled as a strict search. It is only reached on a list, where every key is an integer.
- The next free index of `$a[]` is computed from the keys, ignoring negative ones. This is the rule before PHP 8.3. The hash table's own counter, which `unset` can leave higher than the largest key, is not modelled.
- The failure of `$a[]` once the next index would pass `PHP_INT_MAX`. Integers are unbounded.
- Named arguments to `of`, which would give string keys.
- Writes to the public `length` property from outside the class. `Valid()` assumes `length` still equals the count.
