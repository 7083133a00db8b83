/**
 * The JsArray class: JavaScript-style array methods over a PHP array. Every
 * method walks the wrapped array with a `foreach` loop and builds a fresh
 * result; no method changes the object it is called on (none has a
 * `modifies` clause).
 */
module JsArrays {
  import opened PhpArray
  import opened ArraySpec

  /** The wrapped arrays of a list of JsArray objects, in order. */
  function ItemsOf(arrays: seq<JsArray>): (r: seq<seq<Entry>>)
    reads arrays
    ensures |r| == |arrays| && forall i | 0 <= i < |arrays| :: r[i] == arrays[i].items
  {
    seq(|arrays|, i reads arrays requires 0 <= i < |arrays| => arrays[i].items)
  }

  class JsArray {
    var items: seq<Entry>
    var length: int

    /** The wrapped array is a PHP array, and `length` is its count. */
    ghost predicate Valid()
      reads this
    {
      DistinctKeys(items) && length == |items|
    }

    constructor (items: seq<Entry> := [])
      requires DistinctKeys(items)
      ensures Valid() && this.items == items && length == |items|
    {
      this.items := items;
      length := |items|;
    }

    static method From(items: seq<Entry>) returns (r: JsArray)
      requires DistinctKeys(items)
      ensures fresh(r) && r.Valid() && r.items == items
    {
      r := new JsArray(items);
    }

    /** `of(...$items)`: the arguments as a list. */
    static method Of(values: seq<Value>) returns (r: JsArray)
      ensures fresh(r) && r.Valid() && IsList(r.items) && Values(r.items) == values
    {
      IndexedDistinct(values, 0);
      ValuesIndexed(values, 0);
      r := new JsArray(Indexed(values, 0));
    }

    method Map(f: Mapper) returns (r: JsArray)
      requires Valid()
      ensures fresh(r) && r.Valid() && r.items == Mapped(items, f) && r.length == length
    {
      var result: seq<Entry> := [];
      for i := 0 to |items|
        invariant result == Mapped(items[..i], f)
      {
        var key, value := items[i].key, items[i].val;
        forall j | 0 <= j < |result| ensures result[j].key != key {
          assert result[j].key == items[j].key;
        }
        result := Put(result, key, f(value, key));
        PrefixSnoc(items, i);
      }
      assert items[..|items|] == items;
      MappedKeys(items, f);
      r := new JsArray(result);
    }

    method Filter(p: Test) returns (r: JsArray)
      requires Valid()
      ensures fresh(r) && r.Valid() && r.items == Filtered(items, p) && r.length <= length
    {
      var result: seq<Entry> := [];
      for i := 0 to |items|
        invariant result == Filtered(items[..i], p)
      {
        var key, value := items[i].key, items[i].val;
        FilteredStep(items, i, p);
        if p(value, key) {
          result := Put(result, key, value);
        }
      }
      assert items[..|items|] == items;
      SubsequenceDistinct(result, items);
      r := new JsArray(result);
    }

    /** `reduce($callback, $initial = null)`. */
    method Reduce(f: Reducer, initial: Value := VNull) returns (accumulator: Value)
      ensures accumulator == Reduced(items, f, initial)
    {
      accumulator := initial;
      var first := true;
      for i := 0 to |items|
        invariant first == (i == 0)
        invariant accumulator == Reduced(items[..i], f, initial)
      {
        var key, value := items[i].key, items[i].val;
        ReducedSnoc(items[..i], f, initial, items[i]);
        PrefixSnoc(items, i);
        if first && initial == VNull {
          accumulator := value;
          first := false;
          continue;
        }
        accumulator := f(accumulator, value, key);
        first := false;
      }
      assert items[..|items|] == items;
    }

    method Flat() returns (r: JsArray)
      ensures fresh(r) && r.Valid() && r.items == Flattened(items)
      ensures IsList(r.items) && r.length == NestedLength(items) + ScalarCount(items)
    {
      var result: seq<Entry> := [];
      for i := 0 to |items|
        invariant result == Indexed(FlatValues(items[..i]), 0)
      {
        var value := items[i].val;
        FlattenedStep(items, i);
        NextIndexOfList(result);
        if value.VArr? {
          result := PushAll(result, value.entries);
        } else {
          assert Indexed(Spread(value), |result|) == [Entry(IntK(|result|), value)];
          result := Push(result, value);
        }
      }
      assert items[..|items|] == items;
      FlattenedLength(items);
      r := new JsArray(result);
    }

    method FlatMap(f: Mapper) returns (r: JsArray)
      requires Valid()
      ensures fresh(r) && r.Valid() && r.items == Flattened(Mapped(items, f))
    {
      var mapped := Map(f);
      r := mapped.Flat();
    }

    method Concat(arrays: seq<JsArray>) returns (r: JsArray)
      requires Valid()
      ensures fresh(r) && r.Valid() && r.items == Concatenated(items, ItemsOf(arrays))
      ensures r.items[..|items|] == items && r.length == length + TotalLength(ItemsOf(arrays))
      ensures IsList(items) ==> IsList(r.items)
    {
      var result := items;
      ghost var start := NextIndex(items);
      ghost var all := ItemsOf(arrays);
      for k := 0 to |arrays|
        invariant result == items + Indexed(AllValues(all[..k]), start)
      {
        var pushed := PushAll(result, arrays[k].items);
        assert arrays[k].items == all[k];
        ConcatenatedStep(items, all, k);
        result := pushed;
      }
      assert result == Concatenated(items, all) && DistinctKeys(result) by {
        assert all[..|arrays|] == all;
        ConcatenatedDistinct(items, all);
      }
      ConcatenatedShape(items, all);
      r := new JsArray(result);
    }

    method Find(p: Test) returns (r: Value)
      ensures var m := FirstMatch(items, p);
        r == if m < |items| then items[m].val else VNull
    {
      for i := 0 to |items|
        invariant forall j | 0 <= j < i :: !p(items[j].val, items[j].key)
      {
        var key, value := items[i].key, items[i].val;
        if p(value, key) {
          return value;
        }
      }
      return VNull;
    }

    /**
     * `findIndex`: on a list, the position of the first match (its key) or
     * -1; on any other array, the first matching key or null.
     */
    method FindIndex(p: Test) returns (r: Value)
      requires Valid()
      ensures var m := FirstMatch(items, p);
        if IsList(items) then r == VInt(if m < |items| then m else -1)
        else r == if m < |items| then KeyValue(items[m].key) else VNull
    {
      for i := 0 to |items|
        invariant forall j | 0 <= j < i :: !p(items[j].val, items[j].key)
      {
        var key, value := items[i].key, items[i].val;
        if p(value, key) {
          if IsNumericArray(items) {
            assert Keys(items)[i] == key;
            var found := Search(Keys(items), key);
            r := if found.Found? then VInt(found.pos) else VBool(false);
          } else {
            r := KeyValue(key);
          }
          return;
        }
      }
      r := if IsNumericArray(items) then VInt(-1) else VNull;
    }

    /** `isNumericArray`: empty, or `array_keys($array) === range(0, count($array) - 1)`. */
    static function IsNumericArray(s: seq<Entry>): (r: bool)
      ensures r <==> IsList(s)
    {
      assert IsList(s) ==> Keys(s) == seq(|s|, i => IntK(i));
      assert Keys(s) == seq(|s|, i => IntK(i)) ==> forall i | 0 <= i < |s| :: Keys(s)[i] == IntK(i);
      s == [] || Keys(s) == seq(|s|, i => IntK(i))
    }

    method Includes(value: Value) returns (r: bool)
      ensures r <==> exists i | 0 <= i < |items| :: items[i].val == value
    {
      for i := 0 to |items|
        invariant forall j | 0 <= j < i :: items[j].val != value
      {
        if items[i].val == value {
          return true;
        }
      }
      return false;
    }

    method Some(p: Test) returns (r: bool)
      ensures r <==> exists i | 0 <= i < |items| :: p(items[i].val, items[i].key)
    {
      for i := 0 to |items|
        invariant forall j | 0 <= j < i :: !p(items[j].val, items[j].key)
      {
        if p(items[i].val, items[i].key) {
          return true;
        }
      }
      return false;
    }
  }

  /**
   * The inner `foreach ($value as $item) { $result[] = $item; }` of `flat`
   * and `concat`: the values go on under consecutive keys from the next
   * free index.
   */
  method PushAll(result: seq<Entry>, values: seq<Entry>) returns (r: seq<Entry>)
    ensures r == result + Indexed(Values(values), NextIndex(result))
    ensures NextIndex(r) == NextIndex(result) + |values|
  {
    r := result;
    ghost var n := NextIndex(result);
    for j := 0 to |values|
      invariant r == result + Indexed(Values(values[..j]), n)
    {
      PushRunStep(result, values, j);
      r := Push(r, values[j].val);
    }
    assert values[..|values|] == values;
    NextIndexAfterRun(result, Values(values));
  }

  /** What `array_search` reports: the position found, or `false`. */
  datatype SearchResult = Found(pos: nat) | NotFound

  /** `array_search($needle, $keys)` with strict comparison: the first position, or none. */
  function Search(keys: seq<Key>, needle: Key): (r: SearchResult)
    ensures r.Found? ==>
      (r.pos < |keys| && keys[r.pos] == needle && forall j | 0 <= j < r.pos :: keys[j] != needle)
    ensures r.NotFound? ==> needle !in keys
  {
    if keys == [] then NotFound
    else if keys[0] == needle then Found(0)
    else
      match Search(keys[1..], needle)
      case Found(p) => Found(p + 1)
      case NotFound => NotFound
  }
}
