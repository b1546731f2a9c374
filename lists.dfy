/** `Array.prototype.filter`, which several map layers apply before mapping. */
module Lists {
  import opened Wrappers

  /** The elements of `s` that satisfy `p`, in order. */
  function Filter<T>(s: seq<T>, p: T -> bool): (r: seq<T>)
    ensures |r| <= |s|
    ensures forall i :: 0 <= i < |r| ==> p(r[i])
    decreases |s|
  {
    if s == [] then []
    else Filter(s[..|s| - 1], p) + (if p(s[|s| - 1]) then [s[|s| - 1]] else [])
  }

  /** The filtered list is exactly the elements that satisfy `p`: each one
      comes from an increasing position of `s`, and none is missed. */
  lemma {:induction false} FilterExact<T>(s: seq<T>, p: T -> bool) returns (idx: seq<nat>)
    ensures |idx| == |Filter(s, p)|
    ensures forall k :: 0 <= k < |idx| ==> idx[k] < |s| && Filter(s, p)[k] == s[idx[k]]
    ensures forall k, l :: 0 <= k < l < |idx| ==> idx[k] < idx[l]
    ensures forall i :: 0 <= i < |s| && p(s[i]) ==> i in idx
    decreases |s|
  {
    if s == [] {
      idx := [];
    } else {
      var init := s[..|s| - 1];
      idx := FilterExact(init, p);
      assert forall i :: 0 <= i < |init| ==> init[i] == s[i];
      if p(s[|s| - 1]) {
        idx := idx + [|s| - 1];
      }
    }
  }

  /** Filtering a list none of whose elements satisfies `p` gives nothing. */
  lemma {:induction false} FilterNone<T>(s: seq<T>, p: T -> bool)
    requires forall i :: 0 <= i < |s| ==> !p(s[i])
    ensures Filter(s, p) == []
    decreases |s|
  {
    if s != [] {
      var init := s[..|s| - 1];
      assert forall i :: 0 <= i < |init| ==> init[i] == s[i];
      FilterNone(init, p);
    }
  }

  /** `s.map(f).filter(Boolean)` where `f` gives a value or nothing: the
      present values, in order. */
  function FilterMap<T, U>(s: seq<T>, f: T -> Option<U>): (r: seq<U>)
    ensures |r| <= |s|
    decreases |s|
  {
    if s == [] then []
    else FilterMap(s[..|s| - 1], f) + (if f(s[|s| - 1]).Some? then [f(s[|s| - 1]).value] else [])
  }

  /** The k-th value is `f` of an element at an increasing position of `s`,
      and every element with a value contributes it. */
  lemma {:induction false} FilterMapExact<T, U>(s: seq<T>, f: T -> Option<U>) returns (idx: seq<nat>)
    ensures |idx| == |FilterMap(s, f)|
    ensures forall k :: 0 <= k < |idx| ==> idx[k] < |s| && f(s[idx[k]]) == Some(FilterMap(s, f)[k])
    ensures forall k, l :: 0 <= k < l < |idx| ==> idx[k] < idx[l]
    ensures forall i :: 0 <= i < |s| && f(s[i]).Some? ==> i in idx
    decreases |s|
  {
    if s == [] {
      idx := [];
    } else {
      var init, last := s[..|s| - 1], s[|s| - 1];
      var prev := FilterMapExact(init, f);
      var r0, r := FilterMap(init, f), FilterMap(s, f);
      assert forall i :: 0 <= i < |init| ==> init[i] == s[i];
      if f(last).Some? {
        idx := prev + [|s| - 1];
        assert r == r0 + [f(last).value];
        assert idx[|prev|] == |s| - 1 && r[|prev|] == f(last).value;
      } else {
        idx := prev;
        assert r == r0;
      }
      assert forall k :: 0 <= k < |prev| ==> idx[k] == prev[k] && r[k] == r0[k];
    }
  }
}
