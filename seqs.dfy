/**
 * The "filter and normalise" shape shared by the JSON parsers: walk a list,
 * skip the items a partial conversion rejects, keep the converted rest in
 * order.
 */
module Seqs {
  import opened Wrappers

  /** The converted items that `f` accepts, in input order. */
  function FilterMap<A, B>(f: A -> Option<B>, s: seq<A>): seq<B>
  {
    if s == [] then []
    else
      var y := f(s[|s| - 1]);
      FilterMap(f, s[..|s| - 1]) + (if y.Some? then [y.value] else [])
  }

  /**
   * Every output is the conversion of some input, and the output is no
   * longer than the input.
   */
  lemma {:induction false} FilterMapFrom<A, B>(f: A -> Option<B>, s: seq<A>)
    ensures |FilterMap(f, s)| <= |s|
    ensures forall k :: 0 <= k < |FilterMap(f, s)| ==>
      exists i :: 0 <= i < |s| && f(s[i]) == Some(FilterMap(f, s)[k])
  {
    if s != [] {
      var init := s[..|s| - 1];
      FilterMapFrom(f, init);
      var out := FilterMap(f, s);
      forall k | 0 <= k < |out|
        ensures exists i :: 0 <= i < |s| && f(s[i]) == Some(out[k])
      {
        if k < |FilterMap(f, init)| {
          var i :| 0 <= i < |init| && f(init[i]) == Some(FilterMap(f, init)[k]);
          assert s[i] == init[i];
        } else {
          assert f(s[|s| - 1]) == Some(out[k]);
        }
      }
    }
  }

  /** Exactly the accepted inputs produce an output. */
  lemma {:induction false} FilterMapCount<A, B>(f: A -> Option<B>, s: seq<A>)
    ensures |FilterMap(f, s)| == |AcceptedAt(f, s)|
  {
    if s != [] {
      var n := |s| - 1;
      var init := s[..n];
      FilterMapCount(f, init);
      if f(s[n]).Some? {
        assert AcceptedAt(f, s) == AcceptedAt(f, init) + {n};
      } else {
        assert AcceptedAt(f, s) == AcceptedAt(f, init);
      }
    }
  }

  /** The positions of `s` whose item `f` accepts. */
  function AcceptedAt<A, B>(f: A -> Option<B>, s: seq<A>): set<int> {
    set i | 0 <= i < |s| && f(s[i]).Some?
  }

  /** `s[:n]` in Python: the first n items, or all of them when there are fewer. */
  function Take<T>(s: seq<T>, n: nat): (r: seq<T>)
    ensures |r| == if |s| <= n then |s| else n
    ensures r == s[..|r|]
  {
    if |s| <= n then s else s[..n]
  }

  /** Every accepted item's conversion is kept. */
  lemma {:induction false} FilterMapKeeps<A, B>(f: A -> Option<B>, s: seq<A>, i: int)
    requires 0 <= i < |s| && f(s[i]).Some?
    ensures f(s[i]).value in FilterMap(f, s)
  {
    var n := |s| - 1;
    if i < n {
      assert s[..n][i] == s[i];
      FilterMapKeeps(f, s[..n], i);
    }
  }

  /** `[f(x) for x in s]`. */
  function Map<A, B>(f: A -> B, s: seq<A>): (r: seq<B>)
    ensures |r| == |s|
    ensures forall i :: 0 <= i < |s| ==> r[i] == f(s[i])
  {
    if s == [] then [] else Map(f, s[..|s| - 1]) + [f(s[|s| - 1])]
  }
}
