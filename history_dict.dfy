/** HistoryDict (Task2.py): a dictionary that remembers which keys were set
    most recently. */
module Task2 {

  /** Python's `s[start:]`: a negative start counts back from the end and is
      clamped at the beginning, a start past the end gives the empty list. */
  function SliceFrom<T>(s: seq<T>, start: int): seq<T>
  {
    if start >= 0 then (if start <= |s| then s[start..] else [])
    else if -start <= |s| then s[|s| + start..] else s
  }

  /** `s[start:]` is always a tail of `s`: all but the first `start` elements
      for a non-negative start, the last `-start` (or all, if there are fewer)
      for a negative one. */
  lemma SliceFromIsTail<T>(s: seq<T>, start: int)
    ensures var r := SliceFrom(s, start);
      && |r| == (if start >= 0 then (if start <= |s| then |s| - start else 0)
                 else (if -start <= |s| then -start else |s|))
      && r == s[|s| - |r|..]
  {
  }

  /** The keys a history of capacity `count` should hold after the keys in
      `sets` were set, in that order: the oldest are dropped until `count`
      remain when count is positive; nothing is dropped when count is 0 (the
      slice `[-0:]` is `[0:]`); nothing is kept when it is negative. Repeated
      keys are kept as often as they were set. */
  function Window<K>(sets: seq<K>, count: int): seq<K>
    decreases |sets|
  {
    if count < 0 then []
    else if count == 0 || |sets| <= count then sets
    else Window(sets[1..], count)
  }

  /** For a capacity of at least 0 the window is the tail of the keys set,
      `count` of them or all if there are fewer (all of them for capacity 0). */
  lemma {:induction false} WindowIsTail<K>(sets: seq<K>, count: int)
    requires count >= 0
    ensures |Window(sets, count)| == if count == 0 || |sets| <= count then |sets| else count
    ensures Window(sets, count) == sets[|sets| - |Window(sets, count)|..]
    decreases |sets|
  {
    if count > 0 && |sets| > count {
      var rest := sets[1..];
      WindowIsTail(rest, count);
      assert Window(sets, count) == Window(rest, count);
      assert |Window(rest, count)| == count;
      assert rest[|rest| - count..] == sets[|sets| - count..];
    }
  }

  /** Appending a key and cutting the list back with `[-count:]`, as set_value
      does, turns the window of the keys set so far into the window of those
      keys and the new one. */
  lemma WindowStep<K>(sets: seq<K>, key: K, count: int)
    ensures SliceFrom(Window(sets, count) + [key], -count) == Window(sets + [key], count)
  {
    if count > 0 {
      var s := sets + [key];
      WindowIsTail(sets, count);
      if |sets| < count {
        assert Window(sets, count) == sets;
        assert Window(s, count) == s;
      } else {
        var w := Window(sets, count);
        assert |w| == count && w == sets[|sets| - count..];
        assert SliceFrom(w + [key], -count) == (w + [key])[1..];
        assert (w + [key])[1..] == s[|s| - count..];
        WindowIsTail(s, count);
      }
    }
  }

  /** With a positive capacity the history never holds more than `count`
      keys, and holds exactly `count` once that many were set. */
  lemma WindowBounded<K>(sets: seq<K>, count: int)
    requires count >= 1
    ensures |Window(sets, count)| == if |sets| < count then |sets| else count
    ensures |Window(sets, count)| <= count
  {
    WindowIsTail(sets, count);
  }

  /** With capacity 0 nothing is ever dropped; with a negative capacity
      nothing is ever kept. */
  lemma WindowDegenerate<K>(sets: seq<K>, count: int)
    requires count <= 0
    ensures count == 0 ==> Window(sets, count) == sets
    ensures count < 0 ==> Window(sets, count) == []
  {
  }

  /** The key set last is the last entry of the history (unless the capacity
      is negative), and the history keeps the calls' own order: it is a
      contiguous tail of all the keys set, duplicates included. */
  lemma WindowRecent<K>(sets: seq<K>, key: K, count: int)
    requires count >= 0
    ensures var w := Window(sets + [key], count);
      && 0 < |w| <= |sets| + 1
      && w[|w| - 1] == key
      && w == (sets + [key])[|sets| + 1 - |w|..]
  {
    WindowIsTail(sets + [key], count);
  }

  class HistoryDict<K(==), V> {
    var dict: map<K, V>
    var count: int
    var history: seq<K>
    /** Every key passed to SetValue so far, in call order. */
    ghost var sets: seq<K>

    ghost predicate Valid()
      reads this
    {
      history == Window(sets, count)
    }

    /** A fresh history is empty: the keys of the initial dictionary are not recorded. */
    constructor (dict: map<K, V>, count: int := 10)
      ensures Valid()
      ensures this.dict == dict && this.count == count
      ensures history == [] && sets == []
    {
      this.dict := dict;
      this.count := count;
      history := [];
      sets := [];
    }

    /** set_value: write the key, record it, keep the last `count` records. */
    method SetValue(key: K, value: V)
      requires Valid()
      modifies this
      ensures Valid()
      ensures dict == old(dict)[key := value]
      ensures count == old(count)
      ensures sets == old(sets) + [key]
      ensures history == SliceFrom(old(history) + [key], -count)
    {
      var appended := history + [key];
      var kept := SliceFrom(appended, -count);
      WindowStep(sets, key, count);
      dict := dict[key := value];
      history := kept;
      sets := sets + [key];
    }

    /** get_history: the most recently set keys, oldest first; changes nothing. */
    method GetHistory() returns (h: seq<K>)
      requires Valid()
      ensures h == Window(sets, count)
    {
      h := history;
    }
  }

  /** The module's own example: one key set after construction. */
  method ExampleOneKey() returns (h: seq<string>, dict: map<string, int>)
    ensures h == ["bar"]
    ensures dict == map["foo" := 42, "bar" := 43]
  {
    var d := new HistoryDict(map["foo" := 42]);
    d.SetValue("bar", 43);
    assert d.count == 10 && d.sets == ["bar"];
    h := d.GetHistory();
    dict := d.dict;
  }

  /** The module's own demonstration: four keys, well under the default capacity. */
  method ExampleFourKeys() returns (h: seq<string>)
    ensures h == ["a", "b", "c", "d"]
  {
    var d := new HistoryDict(map["foo" := 42]);
    d.SetValue("a", 43);
    d.SetValue("b", 43);
    d.SetValue("c", 43);
    d.SetValue("d", 43);
    assert d.count == 10 && d.sets == ["a", "b", "c", "d"];
    h := d.GetHistory();
  }

  /** A capacity of two with a repeated key: the oldest key drops out, the
      repeated one is recorded twice, and the dictionary holds the last value. */
  method ExampleCapacityTwo() returns (h: seq<string>, dict: map<string, int>)
    ensures h == ["b", "b"]
    ensures dict == map["a" := 1, "b" := 3]
  {
    var d := new HistoryDict(map[], 2);
    d.SetValue("a", 1);
    d.SetValue("b", 2);
    d.SetValue("b", 3);
    assert d.count == 2 && d.sets == ["a", "b", "b"];
    assert Window(["a", "b", "b"], 2) == ["b", "b"];
    h := d.GetHistory();
    dict := d.dict;
  }
}
