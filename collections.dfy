/** Small sequence utilities shared by the planner model: the optional value
    that stands for JavaScript's `null`/`undefined`, and one-level flattening
    (`Array.prototype.flat`). */
module Collections {

  datatype Option<+T> = None | Some(value: T)

  /** `ss.flat()`: the inner sequences one after another, in order. */
  function Flatten<T>(ss: seq<seq<T>>): (r: seq<T>)
    ensures ss == [] ==> r == []
  {
    if ss == [] then [] else Flatten(ss[..|ss| - 1]) + ss[|ss| - 1]
  }

  lemma {:induction false} FlattenAppend<T>(a: seq<seq<T>>, b: seq<seq<T>>)
    ensures Flatten(a + b) == Flatten(a) + Flatten(b)
    decreases |b|
  {
    if b == [] {
      assert a + b == a;
    } else {
      var b' := b[..|b| - 1];
      assert (a + b)[..|a + b| - 1] == a + b';
      FlattenAppend(a, b');
    }
  }

  lemma FlattenSingle<T>(s: seq<T>)
    ensures Flatten([s]) == s
  {
    assert [s][..0] == [];
  }

  /** An element is in the flattened sequence iff it is in one of the parts. */
  lemma {:induction false} FlattenMember<T>(ss: seq<seq<T>>, x: T)
    ensures x in Flatten(ss) <==> exists i :: 0 <= i < |ss| && x in ss[i]
    decreases |ss|
  {
    if ss != [] {
      var p := ss[..|ss| - 1];
      FlattenMember(p, x);
      if x in Flatten(p) {
        var i :| 0 <= i < |p| && x in p[i];
        assert x in ss[i];
      }
      if exists i :: 0 <= i < |ss| && x in ss[i] {
        var i :| 0 <= i < |ss| && x in ss[i];
        if i < |p| {
          assert x in p[i];
        }
      }
    }
  }

  /** Two levels of flattening: an element is in the result iff it is in the
      flattening of one of the outer parts. */
  lemma FlattenTwiceMember<T>(sss: seq<seq<seq<T>>>, x: T)
    ensures x in Flatten(Flatten(sss)) <==> exists i :: 0 <= i < |sss| && x in Flatten(sss[i])
  {
    FlattenMember(Flatten(sss), x);
    if x in Flatten(Flatten(sss)) {
      var s :| s in Flatten(sss) && x in s;
      FlattenMember(sss, s);
      var i :| 0 <= i < |sss| && s in sss[i];
      FlattenMember(sss[i], x);
    }
    if exists i :: 0 <= i < |sss| && x in Flatten(sss[i]) {
      var i :| 0 <= i < |sss| && x in Flatten(sss[i]);
      FlattenMember(sss[i], x);
      var j :| 0 <= j < |sss[i]| && x in sss[i][j];
      FlattenMember(sss, sss[i][j]);
    }
  }

  /** `s.filter(p)`: the elements satisfying `p`, in their original order. */
  function Filter<T>(s: seq<T>, p: T -> bool): (r: seq<T>)
    ensures |r| <= |s|
    ensures forall x :: x in r ==> x in s && p(x)
  {
    if s == [] then []
    else Filter(s[..|s| - 1], p) + (if p(s[|s| - 1]) then [s[|s| - 1]] else [])
  }

  function Not<T>(p: T -> bool): T -> bool
  {
    x => !p(x)
  }

  lemma {:induction false} FilterMember<T>(s: seq<T>, p: T -> bool, x: T)
    ensures x in Filter(s, p) <==> x in s && p(x)
    decreases |s|
  {
    if s != [] {
      var s' := s[..|s| - 1];
      FilterMember(s', p, x);
      assert s == s' + [s[|s| - 1]];
    }
  }

  lemma FilterPush<T>(s: seq<T>, x: T, p: T -> bool)
    ensures Filter(s + [x], p) == Filter(s, p) + (if p(x) then [x] else [])
  {
    assert (s + [x])[..|s|] == s;
  }

  /** A prefix one element longer is the prefix with that element appended. */
  lemma PrefixSnoc<T>(s: seq<T>, k: nat)
    requires k < |s|
    ensures s[..k + 1] == s[..k] + [s[k]]
  {
  }

  /** Filtering one element longer a prefix appends that element when it passes. */
  lemma FilterSnoc<T>(s: seq<T>, p: T -> bool, k: nat)
    requires k < |s|
    ensures Filter(s[..k + 1], p) == Filter(s[..k], p) + (if p(s[k]) then [s[k]] else [])
  {
    assert s[..k + 1][..k] == s[..k];
  }

  lemma {:induction false} FilterAppend<T>(a: seq<T>, b: seq<T>, p: T -> bool)
    ensures Filter(a + b, p) == Filter(a, p) + Filter(b, p)
    decreases |b|
  {
    if b == [] {
      assert a + b == a;
    } else {
      var b' := b[..|b| - 1];
      assert (a + b)[..|a + b| - 1] == a + b';
      FilterAppend(a, b', p);
    }
  }

  /** Filtering by `p` and by its negation splits the elements between the two results. */
  lemma {:induction false} FilterPartition<T>(s: seq<T>, p: T -> bool)
    ensures multiset(Filter(s, p)) + multiset(Filter(s, Not(p))) == multiset(s)
    decreases |s|
  {
    if s != [] {
      var s' := s[..|s| - 1];
      FilterPartition(s', p);
      assert s == s' + [s[|s| - 1]];
    }
  }

  /** Two ways of splitting a multiset by `p` agree on the accepted part. */
  lemma MultisetSplit<T>(kept: multiset<T>, dropped: multiset<T>, a: multiset<T>, b: multiset<T>, p: T -> bool)
    requires kept + dropped == a + b
    requires forall y :: y in kept ==> p(y)
    requires forall y :: y in dropped ==> !p(y)
    requires forall y :: y in a ==> p(y)
    requires forall y :: y in b ==> !p(y)
    ensures kept == a
  {
    forall x ensures kept[x] == a[x] {
      var l, r := kept + dropped, a + b;
      assert l[x] == r[x];
      if p(x) {
        assert x !in dropped && x !in b;
      } else {
        assert x !in kept && x !in a;
      }
    }
  }

  /** When the elements of `s` are split into `a`, all accepted by `p`, and
      `b`, all rejected by it, filtering `s` by `p` keeps exactly `a`. */
  lemma FilterSplit<T>(s: seq<T>, p: T -> bool, a: multiset<T>, b: multiset<T>)
    requires multiset(s) == a + b
    requires forall x :: x in a ==> p(x)
    requires forall x :: x in b ==> !p(x)
    ensures multiset(Filter(s, p)) == a
  {
    var kept, dropped := Filter(s, p), Filter(s, Not(p));
    FilterPartition(s, p);
    forall y | y in multiset(dropped) ensures !p(y) {
      assert Not(p)(y);
    }
    MultisetSplit(multiset(kept), multiset(dropped), a, b, p);
  }

  /** Predicates that agree on the elements of `s` filter it alike. */
  lemma {:induction false} FilterExt<T>(s: seq<T>, p: T -> bool, q: T -> bool)
    requires forall x :: x in s ==> p(x) == q(x)
    ensures Filter(s, p) == Filter(s, q)
    decreases |s|
  {
    if s != [] {
      var s' := s[..|s| - 1];
      assert forall x :: x in s' ==> x in s;
      FilterExt(s', p, q);
    }
  }

  /** `s.map((v, k) => k === index ? x : v)`: position `index` replaced by
      `x`, every other position kept; an index outside `s` changes nothing. */
  function Replace<T>(s: seq<T>, index: int, x: T): (r: seq<T>)
    ensures |r| == |s|
    ensures forall k :: 0 <= k < |s| && k != index ==> r[k] == s[k]
    ensures 0 <= index < |s| ==> r[index] == x
  {
    seq(|s|, k requires 0 <= k < |s| => if k == index then x else s[k])
  }

  lemma ReplaceSplit<T>(s: seq<T>, index: nat, x: T)
    requires index < |s|
    ensures Replace(s, index, x) == s[..index] + [x] + s[index + 1..]
  {
  }

  /** `s.filter((v, i) => i !== index)`: the element at `index` left out,
      the others in order; an index outside `s` changes nothing. */
  function RemoveAt<T>(s: seq<T>, index: int): (r: seq<T>)
    ensures 0 <= index < |s| ==> |r| == |s| - 1
    ensures 0 <= index < |s| ==> forall k :: 0 <= k < |r| ==> r[k] == (if k < index then s[k] else s[k + 1])
    ensures !(0 <= index < |s|) ==> r == s
  {
    if 0 <= index < |s| then s[..index] + s[index + 1..] else s
  }

  /** Removing one element takes exactly that element out of the multiset. */
  lemma RemoveAtMultiset<T>(s: seq<T>, index: nat)
    requires index < |s|
    ensures multiset(RemoveAt(s, index)) + multiset{s[index]} == multiset(s)
  {
    assert s == s[..index] + [s[index]] + s[index + 1..];
  }
}
