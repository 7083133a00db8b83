/**
 * Worked examples proved about the reference functions: the behaviour a
 * caller sees on small literal arrays.
 */
module Scenarios {
  import opened PhpArray
  import opened ArraySpec

  /** `fn($a, $b) => $a + $b` on integers. */
  function Add(acc: Value, v: Value, k: Key): Value
  {
    if acc.VInt? && v.VInt? then VInt(acc.n + v.n) else VNull
  }

  /** `JsArray::of(1, [2, 3], 4)->flat()` is the list `[1, 2, 3, 4]`. */
  lemma FlatOfNested()
    ensures Flattened(Indexed([VInt(1), VArr(Indexed([VInt(2), VInt(3)], 0)), VInt(4)], 0))
         == Indexed([VInt(1), VInt(2), VInt(3), VInt(4)], 0)
  {
  }

  /** `JsArray::from([1, 2, 3])->reduce(add)` is 6, and on `[]` it is null rather than an error. */
  lemma ReduceSum()
    ensures Reduced(Indexed([VInt(1), VInt(2), VInt(3)], 0), Add, VNull) == VInt(6)
    ensures Reduced([], Add, VNull) == VNull
  {
  }

  /** `JsArray::from(['a', 'b'])->concat(JsArray::from(['c']))` is the list `['a', 'b', 'c']`. */
  lemma ConcatLists()
    ensures Concatenated(Indexed([VStr("a"), VStr("b")], 0), [Indexed([VStr("c")], 0)])
         == Indexed([VStr("a"), VStr("b"), VStr("c")], 0)
  {
    var s := Indexed([VStr("a"), VStr("b")], 0);
    NextIndexOfList(s);
    var arrays := [Indexed([VStr("c")], 0)];
    assert arrays[1..] == [];
    assert AllValues(arrays) == [VStr("c")];
  }

  /** On a list `[1, 2, 3]`, `findIndex(x => x == 2)` finds position 1 and a test nothing passes finds nothing. */
  lemma FindIndexOnList()
    ensures FirstMatch(Indexed([VInt(1), VInt(2), VInt(3)], 0), (v, k) => v == VInt(2)) == 1
    ensures FirstMatch(Indexed([VInt(1), VInt(2), VInt(3)], 0), (v, k) => v == VInt(9)) == 3
  {
  }
}
