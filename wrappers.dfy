/** Small value types shared by every module of the model. */
module Wrappers {

  /** A nullable database column or an absent lookup result. */
  datatype Option<+T> = None | Some(value: T)

  /** The outcome of an operation that the source lets raise. */
  datatype Result<+T> = Ok(value: T) | Err(error: Error)

  /** Why an operation raised (the source gets an AttributeError on a missing row). */
  datatype Error = NotFound

  /** Python truthiness of a nullable integer id: None and 0 are false. */
  predicate Truthy(x: Option<int>) {
    x.Some? && x.value != 0
  }

  /** Python truthiness of a nullable string: None and "" are false. */
  predicate TruthyStr(s: Option<string>) {
    s.Some? && s.value != ""
  }

  /** Python equality of a nullable string column with a literal. */
  predicate Is(s: Option<string>, lit: string) {
    s == Some(lit)
  }

  /** `[f(x, i) for i, x in enumerate(s)]`. */
  function MapIndexed<T, U>(s: seq<T>, f: (T, nat) -> U): (r: seq<U>)
    ensures |r| == |s|
    ensures forall i :: 0 <= i < |s| ==> r[i] == f(s[i], i)
  {
    seq(|s|, i requires 0 <= i < |s| => f(s[i], i))
  }

  /** One more element of a prefix adds its image at the end. */
  lemma MapIndexedSnoc<T, U>(s: seq<T>, i: nat, f: (T, nat) -> U)
    requires i < |s|
    ensures MapIndexed(s[..i + 1], f) == MapIndexed(s[..i], f) + [f(s[i], i)]
  {
    var a, b := MapIndexed(s[..i + 1], f), MapIndexed(s[..i], f) + [f(s[i], i)];
    forall k | 0 <= k < |a|
      ensures a[k] == b[k]
    {
      assert s[..i + 1][k] == s[k];
    }
  }

  /** Number of elements of `s` that satisfy `p`. */
  function CountIf<T>(s: seq<T>, p: T -> bool): (n: nat)
    ensures n <= |s|
  {
    if s == [] then 0 else (if p(s[0]) then 1 else 0) + CountIf(s[1..], p)
  }

  /** The elements of `s` that satisfy `p`, in order. */
  function Filter<T>(s: seq<T>, p: T -> bool): (r: seq<T>)
    ensures |r| == CountIf(s, p)
    ensures forall x :: x in r ==> x in s && p(x)
  {
    if s == [] then [] else (if p(s[0]) then [s[0]] else []) + Filter(s[1..], p)
  }

  lemma {:induction false} FilterAppend<T>(a: seq<T>, b: seq<T>, p: T -> bool)
    ensures Filter(a + b, p) == Filter(a, p) + Filter(b, p)
    ensures CountIf(a + b, p) == CountIf(a, p) + CountIf(b, p)
  {
    if a == [] {
      assert a + b == b;
    } else {
      assert (a + b)[1..] == a[1..] + b;
      FilterAppend(a[1..], b, p);
    }
  }

  /** One more element of a prefix adds one to the count exactly when it satisfies `p`. */
  lemma CountIfPrefixStep<T>(s: seq<T>, i: nat, p: T -> bool)
    requires i < |s|
    ensures CountIf(s[..i + 1], p) == CountIf(s[..i], p) + (if p(s[i]) then 1 else 0)
  {
    assert s[..i + 1] == s[..i] + [s[i]];
    FilterAppend(s[..i], [s[i]], p);
    assert CountIf([s[i]], p) == (if p(s[i]) then 1 else 0) + CountIf([s[i]][1..], p);
  }

  lemma {:induction false} FilterAll<T>(s: seq<T>, p: T -> bool)
    requires forall x :: x in s ==> p(x)
    ensures Filter(s, p) == s
  {
    if s != [] {
      FilterAll(s[1..], p);
    }
  }

  lemma {:induction false} FilterNone<T>(s: seq<T>, p: T -> bool)
    requires forall x :: x in s ==> !p(x)
    ensures Filter(s, p) == []
  {
    if s != [] {
      FilterNone(s[1..], p);
    }
  }

  /** Every element of `s` that satisfies `p` survives the filter. */
  lemma {:induction false} FilterComplete<T>(s: seq<T>, p: T -> bool, x: T)
    requires x in s && p(x)
    ensures x in Filter(s, p)
  {
    if s[0] != x {
      FilterComplete(s[1..], p, x);
    }
  }

  /** Concatenation regrouped to the right. */
  lemma AppendAssoc<T>(a: seq<T>, b: seq<T>, c: seq<T>)
    ensures a + b + c == a + (b + c)
  {
  }

  /** `f` of each element of `s` that satisfies `p`, in order (an insert per selected row). */
  function Collect<T, U>(s: seq<T>, p: T -> bool, f: T -> U): (r: seq<U>)
    ensures |r| == CountIf(s, p)
  {
    if s == [] then [] else (if p(s[0]) then [f(s[0])] else []) + Collect(s[1..], p, f)
  }

  lemma {:induction false} CollectSnoc<T, U>(s: seq<T>, x: T, p: T -> bool, f: T -> U)
    ensures Collect(s + [x], p, f) == Collect(s, p, f) + if p(x) then [f(x)] else []
  {
    if s == [] {
      assert [x][1..] == [];
    } else {
      assert (s + [x])[1..] == s[1..] + [x];
      CollectSnoc(s[1..], x, p, f);
    }
  }

  /** One more element of a prefix. */
  lemma CollectPrefixStep<T, U>(s: seq<T>, i: nat, p: T -> bool, f: T -> U)
    requires i < |s|
    ensures p(s[i]) ==> Collect(s[..i + 1], p, f) == Collect(s[..i], p, f) + [f(s[i])]
    ensures !p(s[i]) ==> Collect(s[..i + 1], p, f) == Collect(s[..i], p, f)
  {
    assert s[..i + 1] == s[..i] + [s[i]];
    CollectSnoc(s[..i], s[i], p, f);
  }

  /** The loop step of a collecting loop that appends to `s0 + Collect(...)`. */
  lemma CollectAppendStep<T, U>(s0: seq<U>, cur: seq<U>, xs: seq<T>, i: nat, p: T -> bool, f: T -> U)
    requires i < |xs| && cur == s0 + Collect(xs[..i], p, f)
    ensures p(xs[i]) ==> cur + [f(xs[i])] == s0 + Collect(xs[..i + 1], p, f)
    ensures !p(xs[i]) ==> cur == s0 + Collect(xs[..i + 1], p, f)
  {
    CollectPrefixStep(xs, i, p, f);
    AppendAssoc(s0, Collect(xs[..i], p, f), [f(xs[i])]);
  }

  /** Every selected element contributes its image, and nothing else is collected. */
  lemma {:induction false} CollectMembers<T, U>(s: seq<T>, p: T -> bool, f: T -> U)
    ensures forall x :: x in s && p(x) ==> f(x) in Collect(s, p, f)
    ensures forall y :: y in Collect(s, p, f) ==> exists x :: x in s && p(x) && y == f(x)
  {
    if s != [] {
      CollectMembers(s[1..], p, f);
      assert forall x :: x in s ==> x == s[0] || x in s[1..];
    }
  }

  /** Each element of `s` at most once. */
  predicate NoRepeats<T(==)>(s: seq<T>) {
    forall i, j :: 0 <= i < j < |s| ==> s[i] != s[j]
  }

  /** The elements of `s`, each once, in the order of their first occurrence. */
  function Distinct<T(==, !new)>(s: seq<T>): (r: seq<T>)
    ensures forall x :: x in r <==> x in s
    ensures forall i, j :: 0 <= i < j < |r| ==> r[i] != r[j]
  {
    if s == [] then []
    else
      var d := Distinct(s[..|s| - 1]);
      assert forall x :: x in s <==> x in s[..|s| - 1] || x == s[|s| - 1];
      if s[|s| - 1] in d then d else d + [s[|s| - 1]]
  }

  /** Where `x` first occurs in `s`. */
  function FirstPos<T(==)>(s: seq<T>, x: T): (k: nat)
    requires x in s
    ensures k < |s| && s[k] == x && forall j :: 0 <= j < k ==> s[j] != x
  {
    if s[0] == x then 0 else 1 + FirstPos(s[1..], x)
  }

  lemma {:induction false} FirstPosSnoc<T>(s: seq<T>, y: T, x: T)
    requires x in s + [y]
    ensures x in s ==> FirstPos(s + [y], x) == FirstPos(s, x)
    ensures x !in s ==> FirstPos(s + [y], x) == |s|
  {
    var k := FirstPos(s + [y], x);
    if x in s {
      var k0 := FirstPos(s, x);
      assert (s + [y])[k0] == x;
      assert s[k] == x || k == |s|;
    }
  }

  /** Distinct keeps the elements in the order of their first occurrence. */
  lemma {:induction false} DistinctOrder<T(!new)>(s: seq<T>)
    ensures forall i, j :: 0 <= i < j < |Distinct(s)| ==> FirstPos(s, Distinct(s)[i]) < FirstPos(s, Distinct(s)[j])
  {
    if s != [] {
      var n := |s| - 1;
      var init := s[..n];
      var y := s[n];
      assert s == init + [y];
      DistinctOrder(init);
      var d := Distinct(init);
      assert forall i, j :: 0 <= i < j < |d| ==> FirstPos(init, d[i]) < FirstPos(init, d[j]);
      var r := Distinct(s);
      forall i, j | 0 <= i < j < |r|
        ensures FirstPos(s, r[i]) < FirstPos(s, r[j])
      {
        assert r[i] in d;
        FirstPosSnoc(init, y, r[i]);
        FirstPosSnoc(init, y, r[j]);
        if j < |d| {
          assert r[i] == d[i] && r[j] == d[j];
          assert r[j] in init;
          assert FirstPos(init, d[i]) < FirstPos(init, d[j]);
        } else {
          assert r[j] == y && y !in init;
        }
      }
    }
  }

  /** A non-empty set of ids has an element. */
  lemma NonEmpty(s: set<int>)
    requires s != {}
    ensures exists x :: x in s
  {
    if forall x :: x !in s {
      assert false;
    }
  }

  /** The position of the first element satisfying `p` (a `.first()` lookup). */
  function FirstIndex<T>(s: seq<T>, p: T -> bool): (r: Option<nat>)
    ensures r.Some? ==> r.value < |s| && p(s[r.value])
    ensures r.Some? ==> forall j :: 0 <= j < r.value ==> !p(s[j])
    ensures r.None? <==> forall j :: 0 <= j < |s| ==> !p(s[j])
  {
    FirstIndexFrom(s, p, 0)
  }

  function FirstIndexFrom<T>(s: seq<T>, p: T -> bool, from: nat): (r: Option<nat>)
    requires from <= |s|
    requires forall j :: 0 <= j < from ==> !p(s[j])
    ensures r.Some? ==> from <= r.value < |s| && p(s[r.value])
    ensures r.Some? ==> forall j :: 0 <= j < r.value ==> !p(s[j])
    ensures r.None? <==> forall j :: 0 <= j < |s| ==> !p(s[j])
    decreases |s| - from
  {
    if from == |s| then None
    else if p(s[from]) then Some(from)
    else FirstIndexFrom(s, p, from + 1)
  }
}
