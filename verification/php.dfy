/** The few PHP value semantics the transaction naming relies on: string-or-null
    values, PHP truthiness of such values, `array_filter` without a callback,
    `implode` and its inverse `explode`. */
module Php {

  /** A PHP value that is either null or a string. */
  datatype Option<+T> = None | Some(value: T)

  /** PHP truthiness of a string-or-null value: null, "" and "0" are falsy,
      every other string is truthy. */
  predicate Truthy(v: Option<string>) {
    v.Some? && v.value != "" && v.value != "0"
  }

  /** PHP's conversion of a string-or-null value to string: null becomes "". */
  function ToStr(v: Option<string>): string {
    if v.Some? then v.value else ""
  }

  /** The one-element list a value contributes when only truthy values are kept. */
  function Keep(v: Option<string>): seq<string> {
    if Truthy(v) then [v.value] else []
  }

  /** `array_filter($xs)` followed by reading its values in order: the truthy
      entries of `xs`, in the order they occur. */
  function FilterTruthy(xs: seq<Option<string>>): (r: seq<string>)
    ensures |r| <= |xs|
  {
    if xs == [] then []
    else if Truthy(xs[0]) then [xs[0].value] + FilterTruthy(xs[1..])
    else FilterTruthy(xs[1..])
  }

  /** Filtering keeps only truthy values and drops no truthy entry; it gives
      the empty list exactly when every entry is falsy. */
  lemma {:induction false} FilterTruthySpec(xs: seq<Option<string>>)
    ensures forall s :: s in FilterTruthy(xs) ==> Truthy(Some(s))
    ensures forall i :: 0 <= i < |xs| && Truthy(xs[i]) ==> xs[i].value in FilterTruthy(xs)
    ensures FilterTruthy(xs) == [] <==> forall i :: 0 <= i < |xs| ==> !Truthy(xs[i])
  {
    if xs != [] {
      FilterTruthySpec(xs[1..]);
      assert forall i :: 1 <= i < |xs| ==> xs[i] == xs[1..][i - 1];
    }
  }

  /** Filtering keeps every truthy entry as often as it occurs and nothing
      else: each string occurs in the result exactly as many times as it
      occurs as a truthy entry of `xs`. */
  lemma {:induction false} FilterTruthyCounts(xs: seq<Option<string>>)
    ensures forall s :: multiset(FilterTruthy(xs))[s]
                        == (if Truthy(Some(s)) then multiset(xs)[Some(s)] else 0)
  {
    if xs != [] {
      var rest := FilterTruthy(xs[1..]);
      FilterTruthyCounts(xs[1..]);
      assert xs == [xs[0]] + xs[1..];
      assert multiset(xs) == multiset([xs[0]]) + multiset(xs[1..]);
      if Truthy(xs[0]) {
        assert multiset(FilterTruthy(xs)) == multiset([xs[0].value]) + multiset(rest);
      }
    }
  }

  /** Filtering distributes over concatenation, so it never reorders entries. */
  lemma {:induction false} FilterTruthyAppend(a: seq<Option<string>>, b: seq<Option<string>>)
    ensures FilterTruthy(a + b) == FilterTruthy(a) + FilterTruthy(b)
  {
    if a == [] {
      assert a + b == b;
    } else {
      assert (a + b)[0] == a[0];
      assert (a + b)[1..] == a[1..] + b;
      FilterTruthyAppend(a[1..], b);
    }
  }

  /** Filtering a single entry keeps it exactly when it is truthy. */
  lemma FilterTruthySingle(v: Option<string>)
    ensures FilterTruthy([v]) == Keep(v)
  {
  }

  /** Keeping a value only when it is truthy and then filtering changes nothing. */
  lemma FilterTruthyGuarded(v: Option<string>)
    ensures FilterTruthy(if Truthy(v) then [v] else []) == Keep(v)
  {
    FilterTruthySingle(v);
  }

  /** Filtering two entries keeps each exactly when it is truthy, in order. */
  lemma FilterTruthyPair(x: Option<string>, y: Option<string>)
    ensures FilterTruthy([x, y]) == Keep(x) + Keep(y)
  {
    assert [x, y] == [x] + [y];
    FilterTruthyAppend([x], [y]);
    FilterTruthySingle(x);
    FilterTruthySingle(y);
  }

  /** `implode($glue, $pieces)`: the pieces joined with `glue` between neighbours. */
  function Implode(glue: string, pieces: seq<string>): string {
    if |pieces| == 0 then ""
    else if |pieces| == 1 then pieces[0]
    else pieces[0] + glue + Implode(glue, pieces[1..])
  }

  /** `explode($d, $s)` for a one-character delimiter: the maximal runs of `s`
      between occurrences of `d`; never empty, and no piece contains `d`. */
  function Explode(d: char, s: string): (r: seq<string>)
    ensures |r| >= 1
    ensures forall p :: p in r ==> d !in p
    decreases |s|
  {
    if s == [] then [""]
    else
      var rest := Explode(d, s[1..]);
      if s[0] == d then [""] + rest
      else [[s[0]] + rest[0]] + rest[1..]
  }

  /** Implode of a list with at least two pieces puts the glue after the first. */
  lemma ImplodeCons(glue: string, p: string, ps: seq<string>)
    requires |ps| >= 1
    ensures Implode(glue, [p] + ps) == p + glue + Implode(glue, ps)
  {
  }

  /** Text appended to the whole join lands at the end of the last piece. */
  lemma {:induction false} ImplodeAppendToLast(glue: string, ps: seq<string>, x: string)
    requires |ps| >= 1
    ensures Implode(glue, ps) + x == Implode(glue, ps[..|ps| - 1] + [ps[|ps| - 1] + x])
  {
    var n := |ps|;
    if n > 1 {
      ImplodeAppendToLast(glue, ps[1..], x);
      var tail := ps[1..][..n - 2] + [ps[n - 1] + x];
      assert ps[..n - 1] + [ps[n - 1] + x] == [ps[0]] + tail;
      ImplodeCons(glue, ps[0], tail);
    }
  }

  /** A non-delimiter character in front of the text joins the first piece. */
  lemma ExplodeCons(d: char, c: char, u: string)
    requires c != d
    ensures Explode(d, [c] + u) == [[c] + Explode(d, u)[0]] + Explode(d, u)[1..]
  {
    assert ([c] + u)[0] == c && ([c] + u)[1..] == u;
  }

  /** Exploding text that starts with a delimiter-free run `p` extends the first piece by `p`. */
  lemma {:induction false} ExplodePrefix(d: char, p: string, t: string)
    requires d !in p
    ensures Explode(d, p + t) == [p + Explode(d, t)[0]] + Explode(d, t)[1..]
    decreases |p|
  {
    var e := Explode(d, t);
    if p == [] {
      assert p + t == t && p + e[0] == e[0];
      assert e == [e[0]] + e[1..];
    } else {
      var u := p[1..] + t;
      assert p + t == [p[0]] + u;
      assert d !in p[1..] by { assert forall k :: 0 <= k < |p[1..]| ==> p[1..][k] == p[k + 1]; }
      ExplodePrefix(d, p[1..], t);
      ExplodeCons(d, p[0], u);
      assert [p[0]] + (p[1..] + e[0]) == p + e[0];
    }
  }

  /** A delimiter-free run followed by the delimiter explodes into that run
      followed by the pieces of the rest. */
  lemma ExplodeDelimited(d: char, p: string, x: string)
    requires d !in p
    ensures Explode(d, p + [d] + x) == [p] + Explode(d, x)
  {
    ExplodePrefix(d, p, [d] + x);
    assert p + [d] + x == p + ([d] + x);
    assert ([d] + x)[0] == d && ([d] + x)[1..] == x;
    assert Explode(d, [d] + x) == [""] + Explode(d, x);
    assert p + "" == p;
  }

  /** Imploding delimiter-free pieces and exploding again gives back the pieces. */
  lemma {:induction false} ExplodeImplode(d: char, pieces: seq<string>)
    requires |pieces| >= 1
    requires forall p :: p in pieces ==> d !in p
    ensures Explode(d, Implode([d], pieces)) == pieces
  {
    var p := pieces[0];
    if |pieces| == 1 {
      ExplodePrefix(d, p, "");
      assert p + "" == p;
    } else {
      var ps := pieces[1..];
      assert pieces == [p] + ps;
      ExplodeImplode(d, ps);
      ImplodeCons([d], p, ps);
      ExplodeDelimited(d, p, Implode([d], ps));
    }
  }
}
