/**
 * backend/verificar_css.py: compare the classes one html page uses with the classes a
 * stylesheet defines. Either extraction may fail (None, a missing file); the html
 * extraction is an input, the stylesheet is scanned as in CssClasses.
 */
module VerifyCss {
  import opened Wrappers
  import opened CssClasses

  /** Python's ordering of str: code point by code point, a proper prefix first. */
  predicate Before(a: string, b: string)
    decreases |a|
  {
    if |a| == 0 then |b| > 0
    else if |b| == 0 then false
    else if a[0] == b[0] then Before(a[1..], b[1..])
    else a[0] < b[0]
  }

  lemma {:induction false} BeforeIrreflexive(a: string)
    ensures !Before(a, a)
    decreases |a|
  {
    if |a| > 0 {
      BeforeIrreflexive(a[1..]);
    }
  }

  lemma {:induction false} BeforeTotal(a: string, b: string)
    ensures a == b || Before(a, b) || Before(b, a)
    decreases |a|
  {
    if |a| > 0 && |b| > 0 && a[0] == b[0] {
      BeforeTotal(a[1..], b[1..]);
      if a[1..] == b[1..] {
        assert a == [a[0]] + a[1..] && b == [b[0]] + b[1..];
      }
    }
  }

  lemma {:induction false} BeforeAsymmetric(a: string, b: string)
    ensures !(Before(a, b) && Before(b, a))
    decreases |a|
  {
    if |a| > 0 && |b| > 0 && a[0] == b[0] {
      BeforeAsymmetric(a[1..], b[1..]);
    }
  }

  lemma {:induction false} BeforeTransitive(a: string, b: string, c: string)
    requires Before(a, b) && Before(b, c)
    ensures Before(a, c)
    decreases |a|
  {
    if |a| > 0 && a[0] == b[0] && b[0] == c[0] {
      BeforeTransitive(a[1..], b[1..], c[1..]);
    }
  }

  /** The least element of a non-empty finite set of strings. */
  ghost function Least(s: set<string>): (m: string)
    requires s != {}
    ensures m in s && forall x :: x in s && x != m ==> Before(m, x)
    decreases |s|
  {
    var x :| x in s;
    if s == {x} then x
    else
      var m := Least(s - {x});
      BeforeTotal(x, m);
      if Before(x, m) then
        forall y | y in s - {x} && y != m ensures Before(x, y) { BeforeTransitive(x, m, y); }
        x
      else
        m
  }

  /** `m` is below every other element of `s`. */
  predicate IsLeast(m: string, s: set<string>) {
    m in s && forall x :: x in s && x != m ==> Before(m, x)
  }

  /** Every element is listed once, in ascending order. */
  ghost predicate ListsAscending(r: seq<string>, s: set<string>) {
    && |r| == |s|
    && (forall x :: x in r <==> x in s)
    && (forall i, j :: 0 <= i < j < |r| ==> Before(r[i], r[j]))
  }

  /** `sorted(list(s))`: the elements of `s` in ascending order. */
  function Sorted(s: set<string>): (r: seq<string>)
    ensures ListsAscending(r, s)
    decreases |s|
  {
    if s == {} then []
    else
      LeastUnique(s);
      var m :| IsLeast(m, s);
      var rest := Sorted(s - {m});
      SortedCons(m, s, rest);
      [m] + rest
  }

  lemma SortedCons(m: string, s: set<string>, rest: seq<string>)
    requires IsLeast(m, s) && ListsAscending(rest, s - {m})
    ensures ListsAscending([m] + rest, s)
  {
    var r := [m] + rest;
    forall i, j | 0 <= i < j < |r| ensures Before(r[i], r[j]) {
      if i == 0 {
        assert r[j] == rest[j - 1] && r[j] in s - {m};
      } else {
        assert r[i] == rest[i - 1] && r[j] == rest[j - 1];
      }
    }
  }

  /** Exactly one element of a non-empty set is below all the others. */
  lemma LeastUnique(s: set<string>)
    requires s != {}
    ensures exists m :: IsLeast(m, s)
    ensures forall m, n :: IsLeast(m, s) && IsLeast(n, s) ==> m == n
  {
    var l := Least(s);
    assert IsLeast(l, s);
    forall m, n | IsLeast(m, s) && IsLeast(n, s) ensures m == n {
      if m != n {
        BeforeAsymmetric(m, n);
      }
    }
  }

  /** What comparar_arquivos reports. */
  datatype Report =
    | Interrupted
    | AllDefined(htmlCount: nat, cssCount: nat)
    | MissingClasses(htmlCount: nat, cssCount: nat, listed: seq<string>)

  /** comparar_arquivos, given the html extraction and the stylesheet text. */
  function Compare(html: Option<set<string>>, stylesheet: Option<string>): (r: Report)
    ensures r.Interrupted? <==> html.None? || stylesheet.None?
    ensures !r.Interrupted? ==> r.htmlCount == |html.value| && r.cssCount == |Classes(stylesheet.value)|
    ensures r.AllDefined? <==> !r.Interrupted? && html.value <= Classes(stylesheet.value)
    ensures r.MissingClasses? ==>
      var missing := html.value - Classes(stylesheet.value);
      && |r.listed| == |missing|
      && (forall c :: c in r.listed <==> c in html.value && c !in Classes(stylesheet.value))
      && (forall i, j :: 0 <= i < j < |r.listed| ==> Before(r.listed[i], r.listed[j]))
  {
    if html.None? || stylesheet.None? then Interrupted
    else
      var css := Classes(stylesheet.value);
      var missing := html.value - css;
      EmptyDifference(html.value, css);
      if missing == {} then AllDefined(|html.value|, |css|)
      else MissingClasses(|html.value|, |css|, Sorted(missing))
  }

  lemma EmptyDifference(a: set<string>, b: set<string>)
    ensures a - b == {} <==> a <= b
  {
    if a - b == {} {
      forall c | c in a ensures c in b {
        assert c !in a - b;
      }
    }
  }

  /** The listing never repeats a class. */
  lemma ListedDistinct(r: Report, i: int, j: int)
    requires r.MissingClasses? && 0 <= i < j < |r.listed|
    requires forall a, b :: 0 <= a < b < |r.listed| ==> Before(r.listed[a], r.listed[b])
    ensures r.listed[i] != r.listed[j]
  {
    BeforeIrreflexive(r.listed[i]);
  }

  /** A page using "card" and "hero" against a sheet defining only ".hero" lists just "card". */
  lemma CompareExample()
    ensures Compare(Some({"card", "hero"}), Some(".hero")) == MissingClasses(2, 1, ["card"])
  {
    var s := ".hero";
    assert RunEnd(s, 5) == 5;
    assert RunEnd(s, 4) == 5;
    assert RunEnd(s, 3) == 5;
    assert RunEnd(s, 2) == 5;
    assert RunEnd(s, 1) == 5;
    assert Spans(s, 5) == [];
    assert Spans(s, 0) == [Span(0, 5)];
    assert s[1..5] == "hero";
    assert FindAll(s) == ["hero"];
    assert Classes(s) == {"hero"};
    assert {"card", "hero"} - {"hero"} == {"card"};
    assert |{"card", "hero"}| == 2;
    var l := Sorted({"card"});
    assert "card" in l && |l| == 1;
  }
}
