/**
  Array helpers of the renderer: `range`, the Fisher–Yates `shuffle`,
  `selectRandom`, and the reviver that `parseJSON` uses to turn timestamp
  strings into dates.

  The random draw `Math.floor(Math.random() * (i + 1))` of the shuffle is a
  parameter: `swaps[i]` is the index swapped with index `i`, anything in `0..i`.
*/
module Utils {
  import opened Wrappers

  // ---------------------------------------------------------------- range

  /** `range(start, end)`: the integers from `start` up to, not including, `end`; empty when `end <= start`. */
  function Range(start: int, end: int): (r: seq<int>)
    ensures |r| == if end <= start then 0 else end - start
    ensures forall i :: 0 <= i < |r| ==> r[i] == start + i
  {
    seq(if end <= start then 0 else end - start, i => start + i)
  }

  /** Ranges that meet concatenate into one range. */
  lemma RangeConcat(a: int, b: int, c: int)
    requires a <= b <= c
    ensures Range(a, b) + Range(b, c) == Range(a, c)
  {
  }

  // ---------------------------------------------------------------- shuffle

  /** Every draw `swaps[i]` lies in `0..i`, the range of `Math.floor(Math.random() * (i + 1))`. */
  predicate SwapIndices(swaps: seq<nat>) {
    forall i :: 0 <= i < |swaps| ==> swaps[i] <= i
  }

  /** `s` with the elements at `i` and `j` exchanged. */
  function Swap<T>(s: seq<T>, i: nat, j: nat): (r: seq<T>)
    requires i < |s| && j < |s|
    ensures |r| == |s| && multiset(r) == multiset(s)
    ensures r[i] == s[j] && r[j] == s[i]
    ensures forall k :: 0 <= k < |s| && k != i && k != j ==> r[k] == s[k]
  {
    s[i := s[j]][j := s[i]]
  }

  /** The steps `n - 1`, `n - 2`, ..., `0` of the countdown loop of the shuffle, applied to `s`: any number of them only permutes. */
  function FisherYates<T>(s: seq<T>, swaps: seq<nat>, n: nat): (r: seq<T>)
    requires n <= |s| && n <= |swaps| && SwapIndices(swaps)
    ensures |r| == |s| && multiset(r) == multiset(s)
    decreases n
  {
    if n == 0 then s
    else FisherYates(Swap(s, n - 1, swaps[n - 1]), swaps, n - 1)
  }

  /** The whole shuffle of `s` with draws `swaps`. */
  function Shuffled<T>(s: seq<T>, swaps: seq<nat>): (r: seq<T>)
    requires |swaps| == |s| && SwapIndices(swaps)
    ensures |r| == |s| && multiset(r) == multiset(s)
  {
    FisherYates(s, swaps, |s|)
  }

  /** A prefix of a shuffle is drawn from the input: a sub-multiset of it. */
  lemma ShuffledPrefixIsDrawn<T>(s: seq<T>, swaps: seq<nat>, m: nat)
    requires |swaps| == |s| && SwapIndices(swaps) && m <= |s|
    ensures multiset(Shuffled(s, swaps)[..m]) <= multiset(s)
  {
    var t := Shuffled(s, swaps);
    assert t == t[..m] + t[m..];
    assert multiset(t) == multiset(t[..m]) + multiset(t[m..]);
  }

  /** With every draw equal to its own index nothing moves. */
  lemma {:induction false} FisherYatesIdentity<T>(s: seq<T>, swaps: seq<nat>, n: nat)
    requires n <= |s| && n <= |swaps| && SwapIndices(swaps)
    requires forall i :: 0 <= i < n ==> swaps[i] == i
    ensures FisherYates(s, swaps, n) == s
    decreases n
  {
    if n > 0 {
      var t := Swap(s, n - 1, swaps[n - 1]);
      assert forall k :: 0 <= k < |s| ==> t[k] == s[k];
      assert t == s;
      FisherYatesIdentity(s, swaps, n - 1);
    }
  }

  /** `shuffle(array)`: Fisher–Yates in place, from the last index down to 0. */
  method Shuffle<T>(a: array<T>, swaps: seq<nat>)
    requires |swaps| == a.Length && SwapIndices(swaps)
    modifies a
    ensures a[..] == Shuffled(old(a[..]), swaps)
    ensures multiset(a[..]) == multiset(old(a[..]))
  {
    var i := a.Length - 1;
    while i >= 0
      invariant -1 <= i < a.Length
      invariant FisherYates(a[..], swaps, i + 1) == Shuffled(old(a[..]), swaps)
    {
      var j := swaps[i];
      ghost var before := a[..];
      var temp := a[i];
      a[i] := a[j];
      a[j] := temp;
      assert a[..] == Swap(before, i, j);
      assert FisherYates(before, swaps, i + 1) == FisherYates(a[..], swaps, i);
      i := i - 1;
    }
    assert FisherYates(a[..], swaps, 0) == a[..];
  }

  // ---------------------------------------------------------------- selectRandom

  /** Setting `length` of an array to `count`: the first `count` elements, padded with empty slots (`None`). */
  function Resized<T>(s: seq<T>, count: nat): (r: seq<Option<T>>)
    ensures |r| == count
    ensures forall k :: 0 <= k < count ==> r[k] == if k < |s| then Some(s[k]) else None
  {
    seq(count, k requires 0 <= k => if k < |s| then Some(s[k]) else None)
  }

  /** The values present in a sequence with empty slots, in order. */
  function Present<T>(s: seq<Option<T>>): seq<T> {
    if s == [] then [] else (if s[0].Some? then [s[0].value] else []) + Present(s[1..])
  }

  /** The present values of a resized sequence are its first `min(count, |s|)` elements. */
  lemma {:induction false} PresentOfResized<T>(s: seq<T>, count: nat)
    ensures Present(Resized(s, count)) == s[..if count < |s| then count else |s|]
  {
    if count > 0 {
      var r := Resized(s, count);
      if |s| == 0 {
        assert r[1..] == Resized(s, count - 1);
      } else {
        assert r[1..] == Resized(s[1..], count - 1);
      }
      PresentOfResized(if |s| == 0 then s else s[1..], count - 1);
    }
  }

  /** `selectRandom(array, count)`: shuffles a clone and sets its length to `count`. The array is not modified (no `modifies`). */
  method SelectRandom<T>(a: array<T>, count: nat, swaps: seq<nat>) returns (r: seq<Option<T>>)
    requires |swaps| == a.Length && SwapIndices(swaps)
    ensures |r| == count
    ensures r == Resized(Shuffled(a[..], swaps), count)
  {
    var clone := new T[a.Length](k reads a requires 0 <= k < a.Length => a[k]);
    assert clone[..] == a[..];
    Shuffle(clone, swaps);
    r := Resized(clone[..], count);
  }

  /** What `selectRandom` returns besides empty slots is drawn from distinct positions of the input: a sub-multiset of it, of size `min(count, length)`. */
  lemma SelectRandomDrawsFromInput<T>(s: seq<T>, swaps: seq<nat>, count: nat)
    requires |swaps| == |s| && SwapIndices(swaps)
    ensures |Present(Resized(Shuffled(s, swaps), count))| == if count < |s| then count else |s|
    ensures multiset(Present(Resized(Shuffled(s, swaps), count))) <= multiset(s)
  {
    PresentOfResized(Shuffled(s, swaps), count);
    ShuffledPrefixIsDrawn(s, swaps, if count < |s| then count else |s|);
  }

  // ---------------------------------------------------------------- timestamps

  /** The shape of `timestampExp`: `d` stands for a digit `\d`, every other character for itself. */
  const TimestampShape: string := "dddd-dd-ddTdd:dd:dd.dddZ"

  predicate IsDigit(c: char) {
    '0' <= c <= '9'
  }

  /** `s` matches `shape` character by character. */
  predicate MatchesShape(s: string, shape: string) {
    |s| == |shape| &&
    forall i :: 0 <= i < |s| ==> if shape[i] == 'd' then IsDigit(s[i]) else s[i] == shape[i]
  }

  /**
    `timestampExp.test(s)`, anchored at both ends: a match is 24 characters long,
    a date and a time separated by `T`, ending in the UTC marker `Z`.
  */
  predicate IsTimestamp(s: string): (b: bool)
    ensures b ==> |s| == 24 && s[4] == '-' && s[7] == '-' && s[10] == 'T' && s[13] == ':' && s[16] == ':' && s[19] == '.' && s[23] == 'Z'
  {
    MatchesShape(s, TimestampShape)
  }

  /** The timestamp expression accepts exactly 24 characters, digits at the 17 digit places and the fixed separators elsewhere. */
  lemma TimestampLayout(s: string)
    ensures IsTimestamp(s) <==>
      |s| == 24 &&
      (forall i :: i in {0, 1, 2, 3, 5, 6, 8, 9, 11, 12, 14, 15, 17, 18, 20, 21, 22} ==> IsDigit(s[i])) &&
      s[4] == '-' && s[7] == '-' && s[10] == 'T' && s[13] == ':' && s[16] == ':' && s[19] == '.' && s[23] == 'Z'
  {
    if |s| == 24 {
      assert forall i :: 0 <= i < 24 ==> (TimestampShape[i] == 'd' <==> i in {0, 1, 2, 3, 5, 6, 8, 9, 11, 12, 14, 15, 17, 18, 20, 21, 22});
    }
  }

  /** Month and hour values are not range-checked. */
  lemma TimestampNoRangeCheck()
    ensures IsTimestamp("2021-13-45T99:99:99.999Z")
    ensures !IsTimestamp("2021-01-01T00:00:00Z")
  {
    assert !MatchesShape("2021-01-01T00:00:00Z", TimestampShape) by {
      assert |"2021-01-01T00:00:00Z"| != |TimestampShape|;
    }
  }

  /** The values `JSON.parse` hands to a reviver. */
  datatype JsonValue =
    | JNull
    | JBool(b: bool)
    | JNumber(n: real)
    | JString(s: string)
    | JArray(items: seq<JsonValue>)
    | JObject(fields: map<string, JsonValue>)

  /** What the reviver returns: a `Date` built from a timestamp text, or the value it was given. */
  datatype Revived = Date(stamp: string) | Kept(value: JsonValue)

  /** The reviver of `parseJSON`: a timestamp string becomes a date, every other value is returned as it is. */
  function Revive(v: JsonValue): (r: Revived)
    ensures r.Date? <==> v.JString? && IsTimestamp(v.s)
    ensures r.Date? ==> r.stamp == v.s
    ensures r.Kept? ==> r.value == v
  {
    if v.JString? && IsTimestamp(v.s) then Date(v.s) else Kept(v)
  }
}
