/** Values shared by the whole model: JavaScript's "there may be no value",
    the outcome of an awaited remote call, and the order-preserving filter
    the bot applies to its lists. */
module Common {

  /** A value that may be absent: JavaScript `undefined` or `null`, or a
      missing key of an object used as a map. */
  datatype Option<T> = None | Some(value: T)

  /** The outcome of an awaited remote call: a reply, or a thrown error
      (the error's message is only logged by the bot and is not modelled). */
  datatype Result<T> = Ok(value: T) | Failed

  /** An own property `m[k]`: the value, or `undefined` when the key is
      absent. Members inherited from `Object.prototype` are not part of
      this lookup; the dispatch of `#` messages handles the one a key can
      name. */
  function Get<K, V>(m: map<K, V>, k: K): (r: Option<V>)
    ensures r.Some? <==> k in m
    ensures r.Some? ==> r.value == m[k]
  {
    if k in m then Some(m[k]) else None
  }

  /** `xs.filter(p)`: the elements satisfying `p`, in their original order. */
  function Filter<T>(p: T -> bool, s: seq<T>): (r: seq<T>)
    ensures |r| <= |s|
    ensures forall i :: 0 <= i < |r| ==> p(r[i])
    ensures forall i :: 0 <= i < |r| ==> r[i] in s
    ensures forall i :: 0 <= i < |s| ==> (s[i] in r <==> p(s[i]))
    decreases |s|
  {
    if s == [] then []
    else if p(s[0]) then [s[0]] + Filter(p, s[1..])
    else Filter(p, s[1..])
  }

  /** `idx` picks `r` out of `s` in order: `r[k]` is `s[idx[k]]`, and the
      positions strictly increase. */
  predicate Embeds<T(==)>(s: seq<T>, r: seq<T>, idx: seq<nat>) {
    && |idx| == |r|
    && (forall k :: 0 <= k < |idx| ==> idx[k] < |s| && r[k] == s[idx[k]])
    && (forall k, l :: 0 <= k < l < |idx| ==> idx[k] < idx[l])
  }

  /** `r` is picked out of `s` in order, and every element of `s` that
      satisfies `p` is picked. */
  ghost predicate KeptInOrder<T>(p: T -> bool, s: seq<T>, r: seq<T>) {
    exists idx :: Embeds(s, r, idx) && forall i :: 0 <= i < |s| && p(s[i]) ==> i in idx
  }

  /** The positions `Filter` keeps: in increasing order, and every position
      whose element satisfies `p` among them. */
  function FilterIndexes<T(==)>(p: T -> bool, s: seq<T>): (idx: seq<nat>)
    ensures Embeds(s, Filter(p, s), idx)
    ensures forall i :: 0 <= i < |s| && p(s[i]) ==> i in idx
    decreases |s|
  {
    if s == [] then []
    else
      var rest := FilterIndexes(p, s[1..]);
      if p(s[0]) then
        HeadKept(p, s, rest);
        [0] + Shift(rest)
      else
        HeadDropped(p, s, rest);
        Shift(rest)
  }

  lemma HeadKept<T>(p: T -> bool, s: seq<T>, rest: seq<nat>)
    requires s != [] && p(s[0]) && Embeds(s[1..], Filter(p, s[1..]), rest)
    requires forall i :: 0 <= i < |s| - 1 && p(s[1..][i]) ==> i in rest
    ensures Embeds(s, Filter(p, s), [0] + Shift(rest))
    ensures forall i :: 0 <= i < |s| && p(s[i]) ==> i in [0] + Shift(rest)
  {
    var r := Filter(p, s[1..]);
    assert Filter(p, s) == [s[0]] + r;
    EmbedsInTail(s, r, rest);
    EmbedsWithHead(s, r, Shift(rest));
    KeptInTail(p, s, rest);
    forall i | 0 <= i < |s| && p(s[i])
      ensures i in [0] + Shift(rest)
    {
      if i > 0 {
        assert i in Shift(rest);
      }
    }
  }

  lemma HeadDropped<T>(p: T -> bool, s: seq<T>, rest: seq<nat>)
    requires s != [] && !p(s[0]) && Embeds(s[1..], Filter(p, s[1..]), rest)
    requires forall i :: 0 <= i < |s| - 1 && p(s[1..][i]) ==> i in rest
    ensures Embeds(s, Filter(p, s), Shift(rest))
    ensures forall i :: 0 <= i < |s| && p(s[i]) ==> i in Shift(rest)
  {
    assert Filter(p, s) == Filter(p, s[1..]);
    EmbedsInTail(s, Filter(p, s[1..]), rest);
    KeptInTail(p, s, rest);
    forall i | 0 <= i < |s| && p(s[i])
      ensures i in Shift(rest)
    {
      assert i != 0;
    }
  }

  function Shift(idx: seq<nat>): (r: seq<nat>)
    ensures |r| == |idx| && forall k :: 0 <= k < |idx| ==> r[k] == idx[k] + 1
  {
    seq(|idx|, k requires 0 <= k < |idx| => idx[k] + 1)
  }

  lemma EmbedsInTail<T>(s: seq<T>, r: seq<T>, idx: seq<nat>)
    requires s != [] && Embeds(s[1..], r, idx)
    ensures Embeds(s, r, Shift(idx))
  {
    forall k | 0 <= k < |idx|
      ensures r[k] == s[Shift(idx)[k]]
    {
      assert s[1..][idx[k]] == s[idx[k] + 1];
    }
  }

  lemma EmbedsWithHead<T>(s: seq<T>, r: seq<T>, idx: seq<nat>)
    requires s != [] && Embeds(s, r, idx)
    requires forall k :: 0 <= k < |idx| ==> idx[k] >= 1
    ensures Embeds(s, [s[0]] + r, [0] + idx)
  {
    var idx' := [0] + idx;
    var r' := [s[0]] + r;
    forall k | 0 <= k < |idx'|
      ensures idx'[k] < |s| && r'[k] == s[idx'[k]]
    {
      if k > 0 {
        assert idx'[k] == idx[k - 1] && r'[k] == r[k - 1];
      }
    }
    forall k, l | 0 <= k < l < |idx'|
      ensures idx'[k] < idx'[l]
    {
      assert idx'[l] == idx[l - 1];
      if k > 0 {
        assert idx'[k] == idx[k - 1];
      }
    }
  }

  lemma KeptInTail<T>(p: T -> bool, s: seq<T>, rest: seq<nat>)
    requires s != []
    requires forall i :: 0 <= i < |s| - 1 && p(s[1..][i]) ==> i in rest
    ensures forall i :: 1 <= i < |s| && p(s[i]) ==> i in Shift(rest)
  {
    forall i | 1 <= i < |s| && p(s[i])
      ensures i in Shift(rest)
    {
      assert s[1..][i - 1] == s[i];
      var k :| 0 <= k < |rest| && rest[k] == i - 1;
      assert Shift(rest)[k] == i;
    }
  }

  lemma {:induction false} FilterAppend<T>(p: T -> bool, a: seq<T>, b: seq<T>)
    ensures Filter(p, a + b) == Filter(p, a) + Filter(p, b)
    decreases |a|
  {
    if a == [] {
      assert a + b == b;
    } else {
      assert (a + b)[0] == a[0];
      assert (a + b)[1..] == a[1..] + b;
      FilterAppend(p, a[1..], b);
    }
  }

  /** Filtering keeps every copy of a kept value and none of a dropped one. */
  lemma {:induction false} FilterCounts<T>(p: T -> bool, s: seq<T>)
    ensures forall x :: multiset(Filter(p, s))[x] == if p(x) then multiset(s)[x] else 0
    decreases |s|
  {
    if s != [] {
      FilterCounts(p, s[1..]);
      assert s == [s[0]] + s[1..];
    }
  }

  lemma {:induction false} FilterKeepsAll<T>(p: T -> bool, s: seq<T>)
    requires forall i :: 0 <= i < |s| ==> p(s[i])
    ensures Filter(p, s) == s
    decreases |s|
  {
    if s != [] {
      FilterKeepsAll(p, s[1..]);
    }
  }

  lemma FilterDropsAll<T>(p: T -> bool, s: seq<T>)
    requires forall i :: 0 <= i < |s| ==> !p(s[i])
    ensures Filter(p, s) == []
  {
  }

  lemma AppendAssoc<T>(a: seq<T>, b: seq<T>, c: seq<T>)
    ensures (a + b) + c == a + (b + c)
  {
  }

  /** The filter comes back empty exactly when nothing satisfies `p`. */
  lemma FilterEmpty<T>(p: T -> bool, s: seq<T>)
    ensures Filter(p, s) == [] <==> forall i :: 0 <= i < |s| ==> !p(s[i])
  {
    var r := Filter(p, s);
    if r != [] {
      assert r[0] in s;
      var i :| 0 <= i < |s| && s[i] == r[0];
      assert p(s[i]);
    }
  }
}
