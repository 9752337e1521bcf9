/** `Array.prototype.splice(start, 1)` on a JavaScript array of any element type,
    with the ECMAScript treatment of the start position: a negative start
    counts back from the end (and is clamped to 0), a start at or past the end
    removes nothing. */
module JsArray {

  datatype Spliced<T> = Spliced(removed: seq<T>, rest: seq<T>)

  /** The position `splice` actually starts at, in `[0, len]`. */
  function ActualStart(len: nat, start: int): (k: nat)
    ensures k <= len
    ensures 0 <= start <= len ==> k == start
    ensures start < 0 && len + start >= 0 ==> k == len + start
    ensures len + start < 0 ==> k == 0
    ensures start > len ==> k == len
  {
    if start < 0 then (if len + start < 0 then 0 else len + start)
    else if start > len then len
    else start
  }

  /** `s.splice(start, 1)`: the element at the actual start position is
      removed and the rest closes up behind it; when that position is the end
      of the array nothing is removed. The removed element together with
      the rest is exactly the old array. */
  function SpliceOne<T>(s: seq<T>, start: int): (r: Spliced<T>)
    ensures var k := ActualStart(|s|, start);
            (k < |s| ==> r == Spliced([s[k]], s[..k] + s[k + 1..])) &&
            (k == |s| ==> r == Spliced([], s))
    ensures |r.removed| <= 1 && |r.rest| + |r.removed| == |s|
    ensures multiset(r.rest) + multiset(r.removed) == multiset(s)
    ensures r.removed == [] <==> (start >= |s| || s == [])
  {
    var k := ActualStart(|s|, start);
    if k < |s| then
      assert s == s[..k] + [s[k]] + s[k + 1..];
      Spliced([s[k]], s[..k] + s[k + 1..])
    else
      Spliced([], s)
  }

  /** In range, `splice(i, 1)` removes exactly `s[i]`: earlier elements keep
      their positions and every later one moves down by one. */
  lemma SpliceInRange<T>(s: seq<T>, i: int)
    requires 0 <= i < |s|
    ensures SpliceOne(s, i) == Spliced([s[i]], s[..i] + s[i + 1..])
    ensures forall k :: 0 <= k < i ==> SpliceOne(s, i).rest[k] == s[k]
    ensures forall k :: i <= k < |s| - 1 ==> SpliceOne(s, i).rest[k] == s[k + 1]
  {
  }

  /** A negative position within the array addresses an element from the end:
      `splice(-1, 1)` removes the last element. */
  lemma SpliceNegative<T>(s: seq<T>, i: int)
    requires -|s| <= i < 0
    ensures SpliceOne(s, i) == SpliceOne(s, |s| + i)
    ensures SpliceOne(s, i).removed == [s[|s| + i]]
  {
  }

  /** At or past the end nothing is removed and the array is unchanged. */
  lemma SpliceOutOfRange<T>(s: seq<T>, i: int)
    requires i >= |s|
    ensures SpliceOne(s, i) == Spliced([], s)
  {
  }

  /** A negative position before the start is clamped to 0: the first element goes. */
  lemma SpliceBeforeStart<T>(s: seq<T>, i: int)
    requires s != [] && i < -|s|
    ensures SpliceOne(s, i) == Spliced([s[0]], s[1..])
  {
  }

  /** `splice` only removes: every element left behind was in the old array. */
  lemma SpliceRestFrom<T>(s: seq<T>, start: int)
    ensures forall j :: 0 <= j < |SpliceOne(s, start).rest| ==> SpliceOne(s, start).rest[j] in s
  {
    var rest := SpliceOne(s, start).rest;
    forall j | 0 <= j < |rest|
      ensures rest[j] in s
    {
      assert rest[j] in multiset(rest);
    }
  }

  /** Splicing keeps any property every element of the array has. */
  lemma SpliceKeeps<T>(s: seq<T>, start: int, p: T -> bool)
    requires forall k :: 0 <= k < |s| ==> p(s[k])
    ensures var rest := SpliceOne(s, start).rest;
            forall k :: 0 <= k < |rest| ==> p(rest[k])
  {
    SpliceRestFrom(s, start);
  }

  /** `push` keeps a property every element has, when the new element has it too. */
  lemma PushKeeps<T>(s: seq<T>, x: T, p: T -> bool)
    requires forall k :: 0 <= k < |s| ==> p(s[k])
    requires p(x)
    ensures forall k :: 0 <= k < |s| + 1 ==> p((s + [x])[k])
  {
    forall k | 0 <= k < |s| + 1
      ensures p((s + [x])[k])
    {
      if k < |s| {
        assert (s + [x])[k] == s[k];
      }
    }
  }
}
