/**
 * The PHP array the JsArray class wraps: an insertion-ordered map from
 * integer or string keys to values. An array is a sequence of entries whose
 * keys are pairwise distinct; the order of the sequence is the iteration
 * order of `foreach`.
 */
module PhpArray {

  /** An array key: PHP keys are integers or strings. */
  datatype Key = IntK(i: int) | StrK(s: string)

  /** The values the class handles. `VArr` is a raw PHP array nested as a value. */
  datatype Value =
    | VNull
    | VBool(b: bool)
    | VInt(n: int)
    | VStr(str: string)
    | VArr(entries: seq<Entry>)

  /** One key => value pair of an array. */
  datatype Entry = Entry(key: Key, val: Value)

  /** A key read as a PHP value (what `return $key` hands back): an int or a string, from which the key can be read back. */
  function KeyValue(k: Key): (r: Value)
    ensures (r.VInt? && k == IntK(r.n)) || (r.VStr? && k == StrK(r.str))
  {
    match k
    case IntK(i) => VInt(i)
    case StrK(s) => VStr(s)
  }

  /** The values of an array in iteration order (`foreach ($a as $v)`). */
  function Values(s: seq<Entry>): seq<Value>
  {
    seq(|s|, i requires 0 <= i < |s| => s[i].val)
  }

  /** `array_keys($a)`: the keys in iteration order; a key is listed exactly when the array has it. */
  function Keys(s: seq<Entry>): (r: seq<Key>)
    ensures |r| == |s| && forall i | 0 <= i < |s| :: r[i] == s[i].key
    ensures forall k :: k in r <==> HasKey(s, k)
  {
    seq(|s|, i requires 0 <= i < |s| => s[i].key)
  }

  /** `range(start, start + |vs| - 1)` as keys, paired with `vs`: a list whose keys count up from `start`. */
  function Indexed(vs: seq<Value>, start: int): seq<Entry>
  {
    seq(|vs|, i requires 0 <= i < |vs| => Entry(IntK(start + i), vs[i]))
  }

  predicate HasKey(s: seq<Entry>, k: Key)
  {
    exists i | 0 <= i < |s| :: s[i].key == k
  }

  /** Every PHP array has pairwise distinct keys. */
  ghost predicate DistinctKeys(s: seq<Entry>)
  {
    forall i, j | 0 <= i < j < |s| :: s[i].key != s[j].key
  }

  /** A list: the keys are exactly 0, 1, ..., |s| - 1 in this order. */
  ghost predicate IsList(s: seq<Entry>)
  {
    forall i | 0 <= i < |s| :: s[i].key == IntK(i)
  }

  /**
   * `$a[$k] = $v`: an existing key keeps its position and takes the new
   * value; a new key is appended at the end.
   */
  function Put(s: seq<Entry>, k: Key, v: Value): (r: seq<Entry>)
    requires DistinctKeys(s)
    ensures !HasKey(s, k) ==> r == s + [Entry(k, v)]
    ensures HasKey(s, k) ==> |r| == |s| && forall i | 0 <= i < |s| ::
      r[i] == if s[i].key == k then Entry(k, v) else s[i]
  {
    if s == [] then [Entry(k, v)]
    else if s[0].key == k then [Entry(k, v)] + s[1..]
    else
      assert HasKey(s, k) <==> HasKey(s[1..], k) by {
        if HasKey(s, k) {
          var i :| 0 <= i < |s| && s[i].key == k;
          assert s[1..][i - 1].key == k;
        }
        if HasKey(s[1..], k) {
          var i :| 0 <= i < |s[1..]| && s[1..][i].key == k;
          assert s[i + 1].key == k;
        }
      }
      [s[0]] + Put(s[1..], k, v)
  }

  /**
   * The key `$a[] = $v` uses: one more than the largest non-negative
   * integer key, or 0 when there is none. Integer keys are scanned in
   * insertion order, as PHP bumps its next free index on every insertion.
   */
  function NextIndex(s: seq<Entry>): (n: nat)
    ensures s != [] && s[|s| - 1].key.IntK? && s[|s| - 1].key.i >= 0 ==> s[|s| - 1].key.i < n
  {
    if s == [] then 0
    else
      var m := NextIndex(s[..|s| - 1]);
      match s[|s| - 1].key
      case IntK(i) => if i >= m then i + 1 else m
      case StrK(_) => m
  }

  /** The next free index is above every non-negative integer key and is 0 or one past such a key. */
  lemma {:induction false} NextIndexBounds(s: seq<Entry>)
    ensures forall i | 0 <= i < |s| :: s[i].key.IntK? && s[i].key.i >= 0 ==> s[i].key.i < NextIndex(s)
    ensures NextIndex(s) == 0 || exists i | 0 <= i < |s| :: s[i].key == IntK(NextIndex(s) - 1)
  {
    if s != [] {
      var init := s[..|s| - 1];
      NextIndexBounds(init);
      assert forall i | 0 <= i < |init| :: s[i] == init[i];
      if NextIndex(s) != 0 && NextIndex(s) == NextIndex(init) {
        var i :| 0 <= i < |init| && init[i].key == IntK(NextIndex(s) - 1);
        assert s[i].key == IntK(NextIndex(s) - 1);
      }
    }
  }

  /**
   * `$a[] = $v`: appends `v` under the next free integer key. The key is
   * new, so an array with distinct keys keeps them distinct, and the next
   * free index moves up by one.
   */
  function Push(s: seq<Entry>, v: Value): (r: seq<Entry>)
    ensures |r| == |s| + 1 && r[..|s|] == s && r[|s|].val == v
    ensures r[|s|].key == IntK(NextIndex(s)) && !HasKey(s, r[|s|].key)
    ensures NextIndex(r) == NextIndex(s) + 1
    ensures DistinctKeys(s) ==> DistinctKeys(r)
  {
    NextIndexBounds(s);
    var r := s + [Entry(IntK(NextIndex(s)), v)];
    assert r[..|s|] == s;
    r
  }

  /** A run of consecutive keys from the next free index moves it up by the run's length. */
  lemma {:induction false} NextIndexAfterRun(s: seq<Entry>, vs: seq<Value>)
    ensures NextIndex(s + Indexed(vs, NextIndex(s))) == NextIndex(s) + |vs|
  {
    var n := NextIndex(s);
    if vs == [] {
      assert s + Indexed(vs, n) == s;
    } else {
      var init := vs[..|vs| - 1];
      NextIndexAfterRun(s, init);
      var t := s + Indexed(vs, n);
      assert t[..|t| - 1] == s + Indexed(init, n);
    }
  }

  /** Pushing the next value of a run that started at the next free index extends the run by that value. */
  lemma PushRunStep(base: seq<Entry>, values: seq<Entry>, j: nat)
    requires j < |values|
    ensures Push(base + Indexed(Values(values[..j]), NextIndex(base)), values[j].val)
         == base + Indexed(Values(values[..j + 1]), NextIndex(base))
  {
    var run := Values(values[..j]);
    NextIndexAfterRun(base, run);
    IndexedPush(run, NextIndex(base), base, values[j].val);
    assert Values(values[..j + 1]) == run + [values[j].val] by {
      PrefixSnoc(values, j);
      ValuesAppend(values[..j], [values[j]]);
    }
  }

  /** On a list the next free index is its length, so `$a[] = $v` keeps it a list. */
  lemma NextIndexOfList(s: seq<Entry>)
    requires IsList(s)
    ensures NextIndex(s) == |s|
  {
    NextIndexBounds(s);
  }

  /** A run of consecutive integer keys has distinct keys. */
  lemma IndexedDistinct(vs: seq<Value>, start: int)
    ensures DistinctKeys(Indexed(vs, start))
  {
  }

  /** One more step of a `foreach` extends the prefix visited so far by one element. */
  lemma PrefixSnoc<T>(s: seq<T>, i: nat)
    requires i < |s|
    ensures s[..i + 1] == s[..i] + [s[i]]
  {
  }

  /** `foreach` over a concatenation visits the two parts in turn; the values of a run are its values. */
  lemma ValuesAppend(s: seq<Entry>, t: seq<Entry>)
    ensures Values(s + t) == Values(s) + Values(t)
  {
  }

  lemma ValuesIndexed(vs: seq<Value>, start: int)
    ensures Values(Indexed(vs, start)) == vs
  {
  }

  /** Two runs of consecutive keys, the second starting where the first ends, form one run. */
  lemma IndexedAppend(vs: seq<Value>, ws: seq<Value>, start: int)
    ensures Indexed(vs, start) + Indexed(ws, start + |vs|) == Indexed(vs + ws, start)
  {
  }

  /** Pushing onto a run of consecutive keys extends the run. */
  lemma IndexedPush(vs: seq<Value>, start: nat, base: seq<Entry>, v: Value)
    requires NextIndex(base + Indexed(vs, start)) == start + |vs|
    ensures Push(base + Indexed(vs, start), v) == base + Indexed(vs + [v], start)
  {
  }
}
