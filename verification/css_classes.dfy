/**
 * The class-selector scanner shared by backend/check_site.py and backend/verificar_css.py:
 * `set(re.findall(r'\.([a-zA-Z0-9_-]+)', content))`. The scan is the left-to-right,
 * non-overlapping search `re.findall` performs, with the greedy `+` run.
 */
module CssClasses {

  predicate IsClassChar(c: char) {
    ('a' <= c <= 'z') || ('A' <= c <= 'Z') || ('0' <= c <= '9') || c == '_' || c == '-'
  }

  /** End of the longest run of class characters starting at `i`. */
  function RunEnd(s: string, i: nat): (e: nat)
    requires i <= |s|
    ensures i <= e <= |s|
    ensures forall k :: i <= k < e ==> IsClassChar(s[k])
    ensures e == |s| || !IsClassChar(s[e])
    decreases |s| - i
  {
    if i < |s| && IsClassChar(s[i]) then RunEnd(s, i + 1) else i
  }

  /** One match: the '.' at `dot`, the captured class is `s[dot + 1..end]`. */
  datatype Span = Span(dot: nat, end: nat)

  /** A match the pattern can make: a '.', then a maximal non-empty run of class characters. */
  predicate IsMatch(s: string, sp: Span) {
    sp.dot + 1 < sp.end <= |s| && s[sp.dot] == '.' && sp.end == RunEnd(s, sp.dot + 1)
  }

  /** The matches `re.findall` reports when it resumes searching at position `p`. */
  function Spans(s: string, p: nat): (r: seq<Span>)
    requires p <= |s|
    ensures forall k :: 0 <= k < |r| ==> IsMatch(s, r[k]) && p <= r[k].dot
    ensures forall k :: 0 <= k < |r| - 1 ==> r[k].end <= r[k + 1].dot
    decreases |s| - p
  {
    if p + 1 >= |s| then []
    else if s[p] == '.' && IsClassChar(s[p + 1]) then
      var e := RunEnd(s, p + 1);
      [Span(p, e)] + Spans(s, e)
    else Spans(s, p + 1)
  }

  /** The captured groups in match order (`re.findall`). */
  function FindAll(s: string): (r: seq<string>)
    ensures |r| == |Spans(s, 0)|
    ensures forall k :: 0 <= k < |r| ==> r[k] == s[Spans(s, 0)[k].dot + 1..Spans(s, 0)[k].end]
  {
    var sp := Spans(s, 0);
    seq(|sp|, k requires 0 <= k < |sp| => s[sp[k].dot + 1..sp[k].end])
  }

  /** The class names a stylesheet defines (`set(...)` over the matches). */
  function Classes(s: string): set<string> {
    set c | c in FindAll(s)
  }

  /** Some match starts at the '.' at `i`. */
  ghost predicate StartsAt(r: seq<Span>, i: nat) {
    exists k :: 0 <= k < |r| && r[k].dot == i
  }

  lemma StartsAtCons(sp: Span, r: seq<Span>, i: nat)
    requires StartsAt(r, i)
    ensures StartsAt([sp] + r, i)
  {
    var k :| 0 <= k < |r| && r[k].dot == i;
    assert ([sp] + r)[k + 1] == r[k];
  }

  /** A run of class characters cannot pass a character outside the class. */
  lemma RunStops(s: string, j: nat, i: nat)
    requires j <= i < |s| && !IsClassChar(s[i])
    ensures RunEnd(s, j) <= i
  {
  }

  /** Every '.' followed by a class character starts a match: a '.' is not a class character,
      so no earlier match can swallow it. */
  lemma {:induction false} SpansComplete(s: string, p: nat, i: nat)
    requires p <= i && i + 1 < |s| && s[i] == '.' && IsClassChar(s[i + 1])
    ensures StartsAt(Spans(s, p), i)
    decreases |s| - p
  {
    if s[p] == '.' && IsClassChar(s[p + 1]) {
      var e := RunEnd(s, p + 1);
      assert Spans(s, p) == [Span(p, e)] + Spans(s, e);
      if p < i {
        RunStops(s, p + 1, i);
        SpansComplete(s, e, i);
        StartsAtCons(Span(p, e), Spans(s, e), i);
      } else {
        assert Spans(s, p)[0].dot == i;
      }
    } else {
      assert Spans(s, p) == Spans(s, p + 1);
      SpansComplete(s, p + 1, i);
    }
  }

  /** `c` is the maximal class-character run right after the '.' at `i`. */
  predicate MatchAt(s: string, i: int, c: string) {
    0 <= i && i + 1 < |s| && s[i] == '.' && IsClassChar(s[i + 1]) && c == s[i + 1..RunEnd(s, i + 1)]
  }

  lemma ClassesSound(s: string, c: string)
    requires c in Classes(s)
    ensures exists i :: MatchAt(s, i, c)
  {
    var sp := Spans(s, 0);
    var k :| 0 <= k < |sp| && FindAll(s)[k] == c;
    assert IsMatch(s, sp[k]);
    assert MatchAt(s, sp[k].dot, c);
  }

  lemma ClassesComplete(s: string, c: string, i: int)
    requires MatchAt(s, i, c)
    ensures c in Classes(s)
  {
    var sp := Spans(s, 0);
    SpansComplete(s, 0, i);
    var k :| 0 <= k < |sp| && sp[k].dot == i;
    assert FindAll(s)[k] == c;
  }

  /** A name is a defined class exactly when it is the maximal class-character run right after some '.'. */
  lemma ClassesIff(s: string, c: string)
    ensures c in Classes(s) <==> exists i :: MatchAt(s, i, c)
  {
    if c in Classes(s) {
      ClassesSound(s, c);
    }
    if exists i :: MatchAt(s, i, c) {
      var i :| MatchAt(s, i, c);
      ClassesComplete(s, c, i);
    }
  }

  /** Every defined class is non-empty and made of letters, digits, '_' and '-' only,
      and the character after it (if any) is not one of those. */
  lemma ClassShape(s: string, c: string)
    requires c in Classes(s)
    ensures |c| > 0 && forall k :: 0 <= k < |c| ==> IsClassChar(c[k])
    ensures exists i :: (0 <= i && i + 1 + |c| <= |s| && s[i] == '.' && s[i + 1..i + 1 + |c|] == c
      && (i + 1 + |c| == |s| || !IsClassChar(s[i + 1 + |c|])))
  {
    ClassesSound(s, c);
    var i :| MatchAt(s, i, c);
    assert forall k :: 0 <= k < |c| ==> c[k] == s[i + 1 + k];
  }

  /** A stylesheet without a '.' defines no class. */
  lemma NoDotNoClasses(s: string)
    requires forall i :: 0 <= i < |s| ==> s[i] != '.'
    ensures Classes(s) == {}
  {
    forall c | c in Classes(s) ensures false {
      ClassesSound(s, c);
    }
  }

  /** ".btn.on" defines exactly "btn" and "on". */
  lemma ClassesExample()
    ensures Classes(".btn.on") == {"btn", "on"}
  {
    var s := ".btn.on";
    assert RunEnd(s, 4) == 4;
    assert RunEnd(s, 3) == 4;
    assert RunEnd(s, 2) == 4;
    assert RunEnd(s, 1) == 4;
    assert RunEnd(s, 7) == 7;
    assert RunEnd(s, 6) == 7;
    assert RunEnd(s, 5) == 7;
    assert Spans(s, 7) == [];
    assert Spans(s, 4) == [Span(4, 7)];
    assert Spans(s, 0) == [Span(0, 4), Span(4, 7)];
    assert s[1..4] == "btn" && s[5..7] == "on";
    assert FindAll(s) == ["btn", "on"];
  }

  /** A '.' not followed by a class character is skipped: "..x" defines just "x". */
  lemma SkippedDotExample()
    ensures Classes("..x") == {"x"}
  {
    var t := "..x";
    assert RunEnd(t, 3) == 3;
    assert RunEnd(t, 2) == 3;
    assert Spans(t, 3) == [];
    assert Spans(t, 1) == [Span(1, 3)];
    assert Spans(t, 0) == [Span(1, 3)];
    assert t[2..3] == "x";
    assert FindAll(t) == ["x"];
  }
}
