/**
 The skill-list score of the evaluation (`calculate_f1`): both lists are
 lower-cased, trimmed and collapsed to sets; a predicted skill counts as
 matched when it is a substring of some ground-truth skill or contains one;
 precision and recall are combined by their harmonic mean.

 Ground-truth skills may be matched by several predicted skills, so recall,
 and with it the score, is not bounded by 1.
 */
module SkillsF1 {
  import opened Text

  /** `x.lower().strip()`: a trimmed string no longer than `x`.
      `NormIsLowered` and `NormIdempotent` say the rest. */
  function Norm(x: string): (r: string)
    ensures |r| <= |x|
    ensures Trimmed(r)
  {
    Strip(Lower(x))
  }

  /** The set a skill list collapses to: it holds the normal form of every
      entry, has no more elements than the list has entries, and is empty
      exactly for the empty list. */
  function NormSet(xs: seq<string>): (r: set<string>)
    ensures forall i :: 0 <= i < |xs| ==> Norm(xs[i]) in r
    ensures |r| <= |xs|
    ensures r == {} <==> xs == []
  {
    var r := set x | x in xs :: Norm(x);
    NormImageCard(xs, r);
    assert forall i :: 0 <= i < |xs| ==> xs[i] in xs;
    assert xs == [] ==> r == {};
    assert xs != [] ==> Norm(xs[0]) in r;
    r
  }

  /** A set holding exactly the normal forms of a list's entries has no more
      elements than the list. */
  lemma {:induction false} NormImageCard(xs: seq<string>, r: set<string>)
    requires forall y :: y in r <==> exists x :: x in xs && Norm(x) == y
    ensures |r| <= |xs|
  {
    if xs != [] {
      var t := xs[1..];
      var r' := set x | x in t :: Norm(x);
      NormImageCard(t, r');
      assert forall x :: x in xs <==> x == xs[0] || x in t;
      assert r == r' + {Norm(xs[0])};
    } else {
      assert r == {};
    }
  }

  /** A normal form contains no capital letter. */
  lemma NormIsLowered(x: string)
    ensures forall i :: 0 <= i < |Norm(x)| ==> !IsUpper(Norm(x)[i])
  {
    StripMembers(Lower(x));
    forall i | 0 <= i < |Norm(x)| ensures !IsUpper(Norm(x)[i]) {
      assert Norm(x)[i] in Lower(x);
    }
  }

  /** Normalising a normal form changes nothing. */
  lemma NormIdempotent(x: string)
    ensures Norm(Norm(x)) == Norm(x)
  {
    NormIsLowered(x);
    assert Lower(Norm(x)) == Norm(x);
    StripTrimmed(Norm(x));
  }

  /** The flexible match between one predicted and one ground-truth skill. */
  predicate Related(p: string, t: string) {
    IsSubstring(p, t) || IsSubstring(t, p)
  }

  predicate Matched(p: string, truth: set<string>) {
    exists t :: t in truth && Related(p, t)
  }

  /** The predicted skills that find a partner among the ground truth. */
  function MatchedSet(pred: set<string>, truth: set<string>): set<string> {
    set p | p in pred && Matched(p, truth)
  }

  /** The `matches` counter: one per matched predicted skill, whatever order
      the two sets are scanned in. */
  function MatchCount(pred: set<string>, truth: set<string>): (m: nat)
    ensures m <= |pred|
    ensures m > 0 ==> |truth| > 0
  {
    SubsetCard(MatchedSet(pred, truth), pred);
    |MatchedSet(pred, truth)|
  }

  lemma {:induction false} SubsetCard<T>(a: set<T>, b: set<T>)
    requires a <= b
    ensures |a| <= |b|
    decreases |b|
  {
    if b != {} {
      var x :| x in b;
      SubsetCard(a - {x}, b - {x});
    }
  }

  /** `calculate_f1`'s inner loop: scan the ground truth for a partner of `p`
      and stop at the first one. */
  method FindPartner(p: string, truth: set<string>) returns (found: bool)
    ensures found <==> Matched(p, truth)
  {
    var rest := truth;
    while rest != {}
      invariant rest <= truth
      invariant forall t :: t in truth - rest ==> !Related(p, t)
      decreases rest
    {
      var t :| t in rest;
      if Related(p, t) {
        return true;
      }
      rest := rest - {t};
    }
    return false;
  }

  /** `calculate_f1`'s outer loop: count the predicted skills that have a
      partner. The order the set is visited in is left open, so the result is
      the same for every iteration order. */
  method CountMatches(pred: set<string>, truth: set<string>) returns (matches: nat)
    ensures matches == |MatchedSet(pred, truth)|
    ensures matches <= |pred|
  {
    matches := 0;
    var rest := pred;
    ghost var done: set<string> := {};
    while rest != {}
      invariant rest <= pred
      invariant done == pred - rest
      invariant matches == |MatchedSet(done, truth)|
      decreases rest
    {
      var p :| p in rest;
      var found := FindPartner(p, truth);
      if found {
        assert MatchedSet(done + {p}, truth) == MatchedSet(done, truth) + {p};
        matches := matches + 1;
      } else {
        assert MatchedSet(done + {p}, truth) == MatchedSet(done, truth);
      }
      rest := rest - {p};
      done := done + {p};
    }
    assert done == pred;
    SubsetCard(MatchedSet(pred, truth), pred);
  }

  /** `precision`: share of the `np` predicted skills that are matched; 0 when
      nothing was predicted. */
  function Precision(m: nat, np: nat): (p: real)
    requires m <= np
    ensures 0.0 <= p <= 1.0
    ensures p == 0.0 <==> m == 0
  {
    if np > 0 then m as real / np as real else 0.0
  }

  /** `recall`: matched predicted skills per ground-truth skill. Several
      predicted skills may lean on the same ground-truth skill, so `m` may
      exceed `nt` and the recall may exceed 1. */
  function Recall(m: nat, nt: nat): (q: real)
    requires nt > 0
    ensures q >= 0.0
    ensures q == 0.0 <==> m == 0
    ensures q > 1.0 <==> m > nt
  {
    var q := m as real / nt as real;
    assert q * nt as real == m as real;
    q
  }

  /** The arithmetic of `calculate_f1` once the counts are known: `m` matched
      out of `np` predicted and `nt` ground-truth skills. */
  function ScoreOfCounts(m: nat, np: nat, nt: nat): (r: real)
    requires m <= np
    ensures r >= 0.0
    ensures nt == 0 ==> r == 0.0
    ensures nt > 0 ==> r == 2.0 * m as real / (np + nt) as real
    ensures r > 0.0 <==> m > 0 && nt > 0
    ensures r < 2.0
    ensures m <= nt ==> r <= 1.0
  {
    if nt == 0 then 0.0
    else
      ClosedFormBounds(m, np, nt);
      var precision := Precision(m, np);
      var recall := Recall(m, nt);
      if precision + recall == 0.0 then 0.0
      else
        HarmonicMeanOfRatios(m as real, np as real, nt as real);
        2.0 * (precision * recall) / (precision + recall)
  }

  /** Where the closed form 2m/(np+nt) lies: it is positive exactly when
      something matched, below 2 because no more than `np` predicted skills
      can match, and at most 1 while the matches do not outnumber the
      ground truth. */
  lemma ClosedFormBounds(m: nat, np: nat, nt: nat)
    requires m <= np && nt > 0
    ensures 0.0 <= 2.0 * m as real / (np + nt) as real < 2.0
    ensures 2.0 * m as real / (np + nt) as real > 0.0 <==> m > 0
    ensures m <= nt ==> 2.0 * m as real / (np + nt) as real <= 1.0
  {
    var d := (np + nt) as real;
    QuotientBelow(2.0 * m as real, d, 2.0);
    if m <= nt {
      QuotientBelow(2.0 * m as real, d, 1.0);
    }
  }

  /** Dividing by a positive `d` and multiplying back returns `x`. */
  lemma QuotientTimes(x: real, d: real)
    requires d > 0.0
    ensures (x / d) * d == x
  {
  }

  /** x/d stays at or below c exactly when x stays at or below c·d. */
  lemma QuotientBelow(x: real, d: real, c: real)
    requires d > 0.0
    ensures x / d <= c <==> x <= c * d
    ensures x / d < c <==> x < c * d
    ensures x >= 0.0 ==> x / d >= 0.0
  {
    var q := x / d;
    assert q * d == x;
    assert x - c * d == (q - c) * d;
  }

  /** `calculate_f1(true_list, pred_list)`. */
  function CalculateF1(trueList: seq<string>, predList: seq<string>): (r: real)
    ensures r >= 0.0
    ensures NormSet(trueList) == {} ==> r == 0.0
    ensures NormSet(trueList) != {} ==>
              r == 2.0 * MatchCount(NormSet(predList), NormSet(trueList)) as real
                   / (|NormSet(predList)| + |NormSet(trueList)|) as real
    ensures r > 0.0 <==> MatchCount(NormSet(predList), NormSet(trueList)) > 0
    ensures r < 2.0
    ensures MatchCount(NormSet(predList), NormSet(trueList)) <= |NormSet(trueList)| ==> r <= 1.0
  {
    var truth := NormSet(trueList);
    var pred := NormSet(predList);
    var m := MatchCount(pred, truth);
    assert truth == {} <==> |truth| == 0;
    ScoreOfCounts(m, |pred|, |truth|)
  }

  /** The harmonic mean of m/a and m/b is 2m/(a+b). */
  lemma HarmonicMeanOfRatios(m: real, a: real, b: real)
    requires m > 0.0 && a > 0.0 && b > 0.0
    ensures 2.0 * ((m / a) * (m / b)) / (m / a + m / b) == 2.0 * m / (a + b)
  {
    var p := m / a;
    var q := m / b;
    assert p * a == m && q * b == m;
    assert p * q * a == q * m;
    assert p * q * b == p * m;
    assert (p * q) * (a + b) == m * (p + q);
    assert p + q > 0.0 && a + b > 0.0;
  }

  // ---------------------------------------------------------------------------
  // Properties
  // ---------------------------------------------------------------------------

  /** An empty ground-truth list scores 0.0, whatever was predicted. */
  lemma EmptyTruthScoresZero(predList: seq<string>)
    ensures CalculateF1([], predList) == 0.0
  {
  }

  /** An empty prediction scores 0.0: precision and recall are both 0. */
  lemma EmptyPredictionScoresZero(trueList: seq<string>)
    ensures CalculateF1(trueList, []) == 0.0
  {
    assert NormSet([]) == {};
  }

  /** The score only sees the two normalised sets. */
  lemma F1DependsOnlyOnNormSets(t1: seq<string>, p1: seq<string>, t2: seq<string>, p2: seq<string>)
    requires NormSet(t1) == NormSet(t2) && NormSet(p1) == NormSet(p2)
    ensures CalculateF1(t1, p1) == CalculateF1(t2, p2)
  {
  }

  /** Case differences between two skills disappear under normalisation. */
  lemma NormIgnoresCase(x: string)
    ensures Norm(Lower(x)) == Norm(x)
  {
    LowerIdempotent(x);
  }

  /** Whitespace around a skill disappears under normalisation. */
  lemma {:induction false} NormIgnoresPadding(l: string, x: string, r: string)
    requires AllSpace(l) && AllSpace(r)
    ensures Norm(l + x + r) == Norm(x)
  {
    LowerAppend(l + x, r);
    LowerAppend(l, x);
    LowerKeepsSpaces(l);
    LowerKeepsSpaces(r);
    StripPadded(l, Lower(x), r);
  }

  /** Two lists whose entries normalise pairwise to the same strings collapse
      to the same set. */
  lemma {:induction false} NormSetOfVariants(xs: seq<string>, ys: seq<string>)
    requires |xs| == |ys|
    requires forall i :: 0 <= i < |xs| ==> Norm(xs[i]) == Norm(ys[i])
    ensures NormSet(xs) == NormSet(ys)
  {
    forall y | y in NormSet(ys) ensures y in NormSet(xs) {
      var v :| v in ys && Norm(v) == y;
      var i :| 0 <= i < |ys| && ys[i] == v;
      assert xs[i] in xs;
    }
    forall y | y in NormSet(xs) ensures y in NormSet(ys) {
      var v :| v in xs && Norm(v) == y;
      var i :| 0 <= i < |xs| && xs[i] == v;
      assert ys[i] in ys;
    }
  }

  /** Replacing entries of either list by case or whitespace variants of
      themselves leaves the score unchanged. */
  lemma VariantsKeepScore(t1: seq<string>, p1: seq<string>, t2: seq<string>, p2: seq<string>)
    requires |t1| == |t2| && forall i :: 0 <= i < |t1| ==> Norm(t1[i]) == Norm(t2[i])
    requires |p1| == |p2| && forall i :: 0 <= i < |p1| ==> Norm(p1[i]) == Norm(p2[i])
    ensures CalculateF1(t1, p1) == CalculateF1(t2, p2)
  {
    NormSetOfVariants(t1, t2);
    NormSetOfVariants(p1, p2);
  }

  /** Repeating an entry, or adding a variant of one already present, leaves
      the score unchanged. */
  lemma DuplicateKeepsScore(trueList: seq<string>, predList: seq<string>, i: nat, x: string)
    requires i < |predList| && Norm(x) == Norm(predList[i])
    ensures CalculateF1(trueList, predList + [x]) == CalculateF1(trueList, predList)
  {
    assert predList[i] in predList;
    assert NormSet(predList + [x]) == NormSet(predList) by {
      forall y | y in NormSet(predList + [x]) ensures y in NormSet(predList) {
        var v :| v in predList + [x] && Norm(v) == y;
        if v !in predList {
          assert v == x;
        }
      }
      forall y | y in NormSet(predList) ensures y in NormSet(predList + [x]) {
        var v :| v in predList && Norm(v) == y;
        assert v in predList + [x];
      }
    }
  }

  lemma NormSetOne(a: string)
    ensures NormSet([a]) == {Norm(a)}
  {
    assert a in [a];
  }

  lemma NormSetTwo(a: string, b: string)
    ensures NormSet([a, b]) == {Norm(a), Norm(b)}
  {
    assert [a, b] == [a] + [b];
    NormSetCons(a, [b]);
    NormSetOne(b);
  }

  /** Prepending an entry adds its normal form to the set. */
  lemma NormSetCons(x: string, xs: seq<string>)
    ensures NormSet([x] + xs) == {Norm(x)} + NormSet(xs)
  {
    forall y | y in NormSet([x] + xs) ensures y in {Norm(x)} + NormSet(xs) {
      var v :| v in [x] + xs && Norm(v) == y;
      if v != x {
        assert v in xs;
      }
    }
    forall y | y in NormSet(xs) ensures y in NormSet([x] + xs) {
      var v :| v in xs && Norm(v) == y;
      assert v in [x] + xs;
    }
    assert x in [x] + xs;
  }

  /** A lower-case, trimmed skill is its own normal form. */
  lemma NormOfNormal(x: string)
    requires Lower(x) == x && Trimmed(x)
    ensures Norm(x) == x
  {
    StripTrimmed(x);
  }

  lemma MatchedSetSingleton(p: string, truth: set<string>, t: string)
    requires t in truth && Related(p, t)
    ensures MatchCount({p}, truth) == 1
  {
    assert MatchedSet({p}, truth) == {p};
  }

  lemma PythonNorms()
    ensures Norm("Python") == "python" && Norm("python") == "python"
  {
    assert Lower("Python") == "python";
    assert Lower("python") == "python";
    NormOfNormal("python");
  }

  lemma SqlNorm()
    ensures Norm("SQL") == "sql"
  {
    assert Lower("SQL") == "sql";
    assert Lower("sql") == "sql";
    NormOfNormal("sql");
  }

  lemma PythonSqlMatch()
    ensures |{"python", "sql"}| == 2
    ensures MatchCount({"python"}, {"python", "sql"}) == 1
  {
    assert "python" != "sql" by { assert "python"[0] != "sql"[0]; }
    assert Related("python", "python") by {
      assert OccursAt("python", "python", 0);
    }
    MatchedSetSingleton("python", {"python", "sql"}, "python");
  }

  lemma PythonSqlCounts()
    ensures NormSet(["Python", "SQL"]) == {"python", "sql"}
    ensures NormSet(["python"]) == {"python"}
    ensures |NormSet(["Python", "SQL"])| == 2
    ensures |NormSet(["python"])| == 1
    ensures MatchCount({"python"}, {"python", "sql"}) == 1
  {
    PythonNorms();
    SqlNorm();
    NormSetTwo("Python", "SQL");
    NormSetOne("python");
    PythonSqlMatch();
  }

  lemma CountsGiveScore(trueList: seq<string>, predList: seq<string>, m: nat, np: nat, nt: nat)
    requires |NormSet(trueList)| == nt && |NormSet(predList)| == np
    requires MatchCount(NormSet(predList), NormSet(trueList)) == m
    requires m <= np
    ensures CalculateF1(trueList, predList) == ScoreOfCounts(m, np, nt)
  {
  }

  /** Ground truth ["Python", "SQL"] against prediction ["python"]: one match
      out of one predicted and two ground-truth skills, so precision 1, recall
      1/2 and score 2/3. */
  lemma PythonSqlExample(trueList: seq<string>, predList: seq<string>)
    requires trueList == ["Python", "SQL"] && predList == ["python"]
    ensures MatchCount(NormSet(predList), NormSet(trueList)) == 1
    ensures CalculateF1(trueList, predList) == 2.0 / 3.0
  {
    PythonSqlCounts();
    CountsGiveScore(trueList, predList, 1, 1, 2);
    assert ScoreOfCounts(1, 1, 2) == 2.0 / 3.0;
  }

  lemma JavaDeveloperNorm()
    ensures Norm("java developer") == "java developer"
  {
    assert Lower("java developer") == "java developer";
    NormOfNormal("java developer");
  }

  lemma JavaNorm()
    ensures Norm("java") == "java"
  {
    assert Lower("java") == "java";
    NormOfNormal("java");
  }

  lemma DeveloperNorm()
    ensures Norm("developer") == "developer"
  {
    assert Lower("developer") == "developer";
    NormOfNormal("developer");
  }

  lemma JavaDeveloperMatch()
    ensures |{"java", "developer"}| == 2
    ensures MatchCount({"java", "developer"}, {"java developer"}) == 2
  {
    var jd := "java developer";
    assert "java" != "developer" by { assert |"java"| != |"developer"|; }
    assert Related("java", jd) by { assert OccursAt("java", jd, 0); }
    assert Related("developer", jd) by { assert OccursAt("developer", jd, 5); }
    MatchedSetPair("java", "developer", {jd}, jd);
  }

  lemma MatchedSetPair(p: string, q: string, truth: set<string>, t: string)
    requires p != q && t in truth && Related(p, t) && Related(q, t)
    ensures |{p, q}| == 2
    ensures MatchCount({p, q}, truth) == 2
  {
    assert MatchedSet({p, q}, truth) == {p, q};
  }

  lemma JavaDeveloperCounts()
    ensures NormSet(["java developer"]) == {"java developer"}
    ensures NormSet(["java", "developer"]) == {"java", "developer"}
    ensures |NormSet(["java", "developer"])| == 2
    ensures MatchCount({"java", "developer"}, {"java developer"}) == 2
  {
    JavaDeveloperNorm();
    JavaNorm();
    DeveloperNorm();
    NormSetOne("java developer");
    NormSetTwo("java", "developer");
    JavaDeveloperMatch();
  }

  /** Ground truth ["java developer"] against prediction ["java", "developer"]:
      both predicted skills lean on the one ground-truth skill, so there are
      more matches than ground-truth skills, recall is 2 and the score is 4/3. */
  lemma ReusedTruthExceedsOne(trueList: seq<string>, predList: seq<string>)
    requires trueList == ["java developer"] && predList == ["java", "developer"]
    ensures MatchCount(NormSet(predList), NormSet(trueList)) > |NormSet(trueList)|
    ensures CalculateF1(trueList, predList) == 4.0 / 3.0
  {
    JavaDeveloperCounts();
    CountsGiveScore(trueList, predList, 2, 2, 1);
    assert ScoreOfCounts(2, 2, 1) == 4.0 / 3.0;
  }
}
