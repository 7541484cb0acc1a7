/** The order Python sorts query parameters in: by name, then value, character by character. */
module ParamOrder {
  import opened Query

  predicate Le(a: string, b: string) {
    if a == "" then true
    else if b == "" then false
    else if a[0] != b[0] then a[0] < b[0]
    else Le(a[1..], b[1..])
  }

  predicate ParamLe(p: Param, q: Param) {
    if p.0 != q.0 then Le(p.0, q.0) else Le(p.1, q.1)
  }

  lemma {:induction false} LeIsTotal(a: string, b: string)
    ensures Le(a, b) || Le(b, a)
  {
    if a != "" && b != "" {
      LeIsTotal(a[1..], b[1..]);
    }
  }

  lemma {:induction false} LeIsAntisymmetric(a: string, b: string)
    requires Le(a, b) && Le(b, a)
    ensures a == b
  {
    if a != "" && b != "" {
      LeIsAntisymmetric(a[1..], b[1..]);
      assert a == [a[0]] + a[1..] && b == [b[0]] + b[1..];
    }
  }

  lemma {:induction false} LeIsTransitive(a: string, b: string, c: string)
    requires Le(a, b) && Le(b, c)
    ensures Le(a, c)
  {
    if a != "" && b != "" && c != "" && a[0] == b[0] == c[0] {
      LeIsTransitive(a[1..], b[1..], c[1..]);
    }
  }

  lemma ParamsAreOrdered(p: Param, q: Param, r: Param)
    ensures ParamLe(p, q) || ParamLe(q, p)
    ensures ParamLe(p, q) && ParamLe(q, p) ==> p == q
    ensures ParamLe(p, q) && ParamLe(q, r) ==> ParamLe(p, r)
  {
    LeIsTotal(p.0, q.0);
    LeIsTotal(p.1, q.1);
    if Le(p.0, q.0) && Le(q.0, p.0) { LeIsAntisymmetric(p.0, q.0); }
    if Le(p.1, q.1) && Le(q.1, p.1) { LeIsAntisymmetric(p.1, q.1); }
    if Le(p.0, q.0) && Le(q.0, r.0) { LeIsTransitive(p.0, q.0, r.0); }
    if Le(p.1, q.1) && Le(q.1, r.1) { LeIsTransitive(p.1, q.1, r.1); }
    if Le(q.0, r.0) && Le(r.0, q.0) { LeIsAntisymmetric(q.0, r.0); }
    hide Le;
  }

  ghost predicate Ordered(s: seq<Param>) {
    forall i, j :: 0 <= i < j < |s| ==> ParamLe(s[i], s[j])
  }

  function Insert(p: Param, s: seq<Param>): seq<Param> {
    if s == [] || ParamLe(p, s[0]) then [p] + s else [s[0]] + Insert(p, s[1..])
  }

  /** `query.sort()`. */
  function Sort(s: seq<Param>): seq<Param> {
    if s == [] then [] else Insert(s[0], Sort(s[1..]))
  }

  lemma {:induction false} InsertOrdered(p: Param, s: seq<Param>)
    requires Ordered(s)
    ensures Ordered(Insert(p, s)) && multiset(Insert(p, s)) == multiset{p} + multiset(s)
  {
    if s != [] {
      assert s == [s[0]] + s[1..];
      if ParamLe(p, s[0]) {
        forall j | 0 <= j < |s|
          ensures ParamLe(p, s[j])
        {
          ParamsAreOrdered(p, s[0], s[j]);
        }
      } else {
        InsertOrdered(p, s[1..]);
        ParamsAreOrdered(p, s[0], p);
        var t := Insert(p, s[1..]);
        forall j | 0 <= j < |t|
          ensures ParamLe(s[0], t[j])
        {
          assert t[j] in multiset(t);
          assert t[j] == p || t[j] in s[1..];
        }
        hide Insert, ParamLe;
      }
    }
  }

  /** Sorting rearranges: the result is in order and holds the same parameters, each as often. */
  lemma {:induction false} SortOrders(s: seq<Param>)
    ensures Ordered(Sort(s)) && multiset(Sort(s)) == multiset(s)
  {
    if s != [] {
      SortOrders(s[1..]);
      InsertOrdered(s[0], Sort(s[1..]));
      assert s == [s[0]] + s[1..];
      hide Insert, ParamLe;
    }
  }

  /** There is only one way to put the same parameters in order. */
  lemma {:induction false} OrderIsUnique(a: seq<Param>, b: seq<Param>)
    requires Ordered(a) && Ordered(b) && multiset(a) == multiset(b)
    ensures a == b
  {
    hide ParamLe;
    assert |multiset(a)| == |a| && |multiset(b)| == |b|;
    if a != [] {
      FirstIsLeast(a, b);
      FirstIsLeast(b, a);
      ParamsAreOrdered(a[0], b[0], a[0]);
      SameTails(a, b);
      OrderIsUnique(a[1..], b[1..]);
    }
  }

  lemma SameTails(a: seq<Param>, b: seq<Param>)
    requires a != [] && b != [] && a[0] == b[0] && multiset(a) == multiset(b)
    ensures multiset(a[1..]) == multiset(b[1..])
    ensures a == [a[0]] + a[1..] && b == [b[0]] + b[1..]
  {
    assert a == [a[0]] + a[1..] && b == [b[0]] + b[1..];
    assert multiset(a[1..]) == multiset(a) - multiset{a[0]} == multiset(b[1..]);
  }

  lemma FirstIsLeast(a: seq<Param>, b: seq<Param>)
    requires Ordered(a) && a != [] && b != [] && multiset(a) == multiset(b)
    ensures ParamLe(a[0], b[0])
  {
    assert b[0] in multiset(b);
    var k :| 0 <= k < |a| && a[k] == b[0];
    ParamsAreOrdered(a[0], a[0], a[0]);
  }

  /** Lists with the same parameters sort the same, and what is in order already stays as it is. */
  lemma SortForgetsOrder(a: seq<Param>, b: seq<Param>)
    requires multiset(a) == multiset(b)
    ensures Sort(a) == Sort(b) && (Ordered(b) ==> Sort(a) == b)
  {
    SortOrders(a);
    SortOrders(b);
    hide Sort, Ordered;
    OrderIsUnique(Sort(a), Sort(b));
    if Ordered(b) {
      OrderIsUnique(Sort(a), b);
    }
  }
}
