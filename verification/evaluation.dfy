/**
 The benchmark runner of the evaluation (`run_evaluation`): it discovers the
 `.txt` benchmark files, scores each item against its ground truth, and
 averages the scores over the items that did not fail.

 Reading the files, the extraction call and its pacing delay are outside the
 model: each item is represented by the outcome of its `try` block.
 */
module Evaluation {
  import opened Optional
  import opened Schema
  import opened SkillsF1
  import opened NameMatch

  /** What one benchmark item contributes: its two scores, or a failure when
      the extraction call (or anything else in the `try` block) raised. */
  datatype Outcome = Success(f1: real, nameScore: real) | Failure

  /** The final report: the averages over the processed items, or the
      "no resumes were processed" message when none succeeded. */
  datatype Report =
    | Processed(filesProcessed: nat, avgNameAccuracy: real, avgSkillsF1: real)
    | NoResults

  // ---------------------------------------------------------------------------
  // Discovery
  // ---------------------------------------------------------------------------

  predicate IsTxt(name: string) {
    |name| >= 4 && name[|name| - 4..] == ".txt"
  }

  /** The benchmark inputs among a directory listing: the names ending in
      `.txt`, in listing order. */
  function TxtFiles(listing: seq<string>): (files: seq<string>)
    ensures |files| <= |listing|
    ensures forall f :: f in files <==> f in listing && IsTxt(f)
    ensures forall f :: multiset(files)[f] == if IsTxt(f) then multiset(listing)[f] else 0
  {
    if listing == [] then []
    else
      assert listing == [listing[0]] + listing[1..];
      if IsTxt(listing[0]) then [listing[0]] + TxtFiles(listing[1..])
      else TxtFiles(listing[1..])
  }

  // ---------------------------------------------------------------------------
  // One item
  // ---------------------------------------------------------------------------

  /** The `try` block for one item: `pred` is the extraction result, `None`
      when the call raised. A missing `skills` or `full_name` in the
      prediction falls back to an empty list or an empty name; a `null` one
      makes the following list or string operation raise, and the item fails. */
  function ScoreItem(gt: GroundTruth, pred: Option<Prediction>): (o: Outcome)
    ensures o.Failure? <==> pred.None? || pred.value.skills.Null? || pred.value.fullName.Null?
    ensures o.Success? ==> o.f1 >= 0.0 && (o.nameScore == 0.0 || o.nameScore == 1.0)
    ensures o.Success? && gt.skills == [] ==> o.f1 == 0.0
    ensures o.Success? && pred.value.skills.Missing? ==> o.f1 == 0.0
    ensures o.Success? && pred.value.skills.Present? ==>
              o.f1 == CalculateF1(gt.skills, pred.value.skills.value)
    ensures o.Success? && (pred.value.fullName.Missing? || pred.value.fullName == Present("")) ==>
              o.nameScore == 1.0
    ensures o.Success? && pred.value.fullName.Present? ==>
              o.nameScore == NameScore(gt.fullName, pred.value.fullName.value)
  {
    match pred
    case None => Failure
    case Some(p) =>
      match (p.skills.Get([]), p.fullName.Get(""))
      case (Some(skills), Some(name)) =>
        EmptyPredictionScoresOne(gt.fullName);
        EmptyPredictionScoresZero(gt.skills);
        Success(CalculateF1(gt.skills, skills), NameScore(gt.fullName, name))
      case _ => Failure
  }

  /** The scores an item can carry: a non-negative F1 and a name score in
      [0, 1]. */
  predicate WellFormed(o: Outcome) {
    o.Success? ==> o.f1 >= 0.0 && 0.0 <= o.nameScore <= 1.0
  }

  // ---------------------------------------------------------------------------
  // Accumulation
  // ---------------------------------------------------------------------------

  function SkillsPart(o: Outcome): real {
    if o.Success? then o.f1 else 0.0
  }

  function NamePart(o: Outcome): real {
    if o.Success? then o.nameScore else 0.0
  }

  /** The sum of `f` over the outcomes, accumulated front to back: zero for no
      outcomes, and never negative when no term is. */
  function Total(os: seq<Outcome>, f: Outcome -> real): (r: real)
    ensures os == [] ==> r == 0.0
    ensures (forall i :: 0 <= i < |os| ==> f(os[i]) >= 0.0) ==> r >= 0.0
  {
    if os == [] then 0.0
    else
      assert forall i :: 0 <= i < |os| - 1 ==> os[..|os| - 1][i] == os[i];
      Total(os[..|os| - 1], f) + f(os[|os| - 1])
  }

  /** The number of failed items: never more than the items, and all of them
      exactly when every item failed. */
  function Failures(os: seq<Outcome>): (n: nat)
    ensures n <= |os|
    ensures n == |os| <==> forall i :: 0 <= i < |os| ==> os[i].Failure?
  {
    FailureCount(os);
    multiset(os)[Failure]
  }

  /** The report for the outcomes of all discovered items: the item count less
      the failures is the number of files processed, and the two sums are
      divided by it only when it is positive. */
  function Aggregate(os: seq<Outcome>): (r: Report)
    ensures r.NoResults? <==> forall i :: 0 <= i < |os| ==> os[i].Failure?
    ensures r.Processed? ==> r.filesProcessed + Failures(os) == |os|
    ensures r.Processed? ==> r.avgSkillsF1 * r.filesProcessed as real == Total(os, SkillsPart)
    ensures r.Processed? ==> r.avgNameAccuracy * r.filesProcessed as real == Total(os, NamePart)
  {
    var n := |os| - Failures(os);
    if n > 0 then
      var names := Total(os, NamePart);
      var skills := Total(os, SkillsPart);
      QuotientTimes(names, n as real);
      QuotientTimes(skills, n as real);
      Processed(n, names / n as real, skills / n as real)
    else
      NoResults
  }

  lemma {:induction false} FailureCount(os: seq<Outcome>)
    ensures multiset(os)[Failure] <= |os|
    ensures multiset(os)[Failure] == |os| <==> forall i :: 0 <= i < |os| ==> os[i].Failure?
  {
    if os != [] {
      var init := os[..|os| - 1];
      assert os == init + [os[|os| - 1]];
      FailureCount(init);
      if forall i :: 0 <= i < |os| ==> os[i].Failure? {
        assert forall i :: 0 <= i < |init| ==> init[i].Failure? by {
          forall i | 0 <= i < |init| ensures init[i].Failure? {
            assert init[i] == os[i];
          }
        }
      }
      if !forall i :: 0 <= i < |init| ==> init[i].Failure? {
        var i :| 0 <= i < |init| && !init[i].Failure?;
        assert os[i] == init[i];
      }
    }
  }

  /** `run_evaluation`'s loop and final report, over the outcomes of the
      discovered items in discovery order. */
  method RunEvaluation(outcomes: seq<Outcome>) returns (report: Report)
    ensures report == Aggregate(outcomes)
  {
    var totalSkills := 0.0;
    var totalName := 0.0;
    var totalFiles: int := |outcomes|;
    for i := 0 to |outcomes|
      invariant totalSkills == Total(outcomes[..i], SkillsPart)
      invariant totalName == Total(outcomes[..i], NamePart)
      invariant totalFiles == |outcomes| - Failures(outcomes[..i])
    {
      assert outcomes[..i + 1][..i] == outcomes[..i];
      assert outcomes[..i + 1] == outcomes[..i] + [outcomes[i]];
      match outcomes[i]
      case Success(f1, nameScore) =>
        totalSkills := totalSkills + f1;
        totalName := totalName + nameScore;
      case Failure =>
        totalFiles := totalFiles - 1;
    }
    assert outcomes[..|outcomes|] == outcomes;
    if totalFiles > 0 {
      report := Processed(totalFiles, totalName / totalFiles as real, totalSkills / totalFiles as real);
    } else {
      report := NoResults;
    }
  }

  // ---------------------------------------------------------------------------
  // Properties
  // ---------------------------------------------------------------------------

  lemma {:induction false} TotalAppend(a: seq<Outcome>, b: seq<Outcome>, f: Outcome -> real)
    ensures Total(a + b, f) == Total(a, f) + Total(b, f)
    decreases |b|
  {
    if b != [] {
      var b' := b[..|b| - 1];
      assert (a + b)[..|a + b| - 1] == a + b';
      TotalAppend(a, b', f);
    } else {
      assert a + b == a;
    }
  }

  lemma {:induction false} TotalRemove(s: seq<Outcome>, i: nat, f: Outcome -> real)
    requires i < |s|
    ensures Total(s, f) == f(s[i]) + Total(s[..i] + s[i + 1..], f)
    decreases |s|
  {
    var init := s[..|s| - 1];
    if i == |s| - 1 {
      assert s[..i] + s[i + 1..] == init;
    } else {
      TotalRemove(init, i, f);
      assert s[..i] + s[i + 1..] == (init[..i] + init[i + 1..]) + [s[|s| - 1]];
      assert (s[..i] + s[i + 1..])[..|s| - 2] == init[..i] + init[i + 1..];
    }
  }

  lemma MultisetRemove(b: seq<Outcome>, i: nat)
    requires i < |b|
    ensures multiset(b[..i] + b[i + 1..]) == multiset(b) - multiset{b[i]}
  {
    assert b == b[..i] + [b[i]] + b[i + 1..];
  }

  lemma {:induction false} TotalPermutation(a: seq<Outcome>, b: seq<Outcome>, f: Outcome -> real)
    requires multiset(a) == multiset(b)
    ensures Total(a, f) == Total(b, f)
    decreases |a|
  {
    if a == [] {
      assert |multiset(b)| == 0;
    } else {
      var x := a[|a| - 1];
      var init := a[..|a| - 1];
      assert a == init + [x];
      assert x in multiset(b);
      var i :| 0 <= i < |b| && b[i] == x;
      MultisetRemove(b, i);
      TotalPermutation(init, b[..i] + b[i + 1..], f);
      TotalRemove(b, i, f);
    }
  }

  /** Processing the items in any other order gives the same report. */
  lemma AggregateOrderIndependent(a: seq<Outcome>, b: seq<Outcome>)
    requires multiset(a) == multiset(b)
    ensures Aggregate(a) == Aggregate(b)
  {
    TotalPermutation(a, b, SkillsPart);
    TotalPermutation(a, b, NamePart);
    assert |a| == |multiset(a)| == |multiset(b)| == |b|;
  }

  /** A failed item leaves no trace: the report is the one of the remaining
      items. */
  lemma FailureIsolation(a: seq<Outcome>, b: seq<Outcome>)
    ensures Aggregate(a + [Failure] + b) == Aggregate(a + b)
  {
    TotalSkipsFailure(a, b, SkillsPart);
    TotalSkipsFailure(a, b, NamePart);
    assert multiset(a + [Failure] + b) == multiset(a + b) + multiset{Failure};
  }

  lemma TotalSkipsFailure(a: seq<Outcome>, b: seq<Outcome>, f: Outcome -> real)
    requires f(Failure) == 0.0
    ensures Total(a + [Failure] + b, f) == Total(a + b, f)
  {
    TotalAppend(a + [Failure], b, f);
    TotalAppend(a, [Failure], f);
    TotalAppend(a, b, f);
    assert [Failure][..0] == [];
  }

  lemma {:induction false} NameTotalBound(os: seq<Outcome>)
    requires forall i :: 0 <= i < |os| ==> WellFormed(os[i])
    ensures 0.0 <= Total(os, NamePart) <= (|os| - Failures(os)) as real
    ensures 0.0 <= Total(os, SkillsPart)
  {
    if os != [] {
      var init := os[..|os| - 1];
      assert os == init + [os[|os| - 1]];
      assert forall i :: 0 <= i < |init| ==> init[i] == os[i];
      NameTotalBound(init);
    }
  }

  /** Over well-formed items, the name accuracy is a fraction in [0, 1] and the
      average F1 is non-negative (it is not bounded by 1). */
  lemma ReportBounds(os: seq<Outcome>)
    requires forall i :: 0 <= i < |os| ==> WellFormed(os[i])
    ensures Aggregate(os).Processed? ==> 0.0 <= Aggregate(os).avgNameAccuracy <= 1.0
    ensures Aggregate(os).Processed? ==> 0.0 <= Aggregate(os).avgSkillsF1
  {
    NameTotalBound(os);
    var r := Aggregate(os);
    if r.Processed? {
      var n := r.filesProcessed as real;
      QuotientBelow(Total(os, NamePart), n, 1.0);
      QuotientBelow(Total(os, SkillsPart), n, 1.0);
    }
  }

  /** Three items: the first scores F1 0.8, the second fails, the third scores
      F1 0.4, both successes match the name. Two files are processed, the name
      accuracy is 1 and the average F1 is 0.6. */
  lemma ThreeItemExample(os: seq<Outcome>)
    requires os == [Success(0.8, 1.0), Failure, Success(0.4, 1.0)]
    ensures Aggregate(os) == Processed(2, 1.0, 0.6)
  {
    assert multiset(os)[Failure] == 1;
    var one := [os[0]];
    var two := one + [Failure];
    assert os[..|os| - 1] == two && two[..1] == one && one[..0] == [];
    assert Total(one, SkillsPart) == 0.8 && Total(one, NamePart) == 1.0;
    assert Total(two, SkillsPart) == 0.8 && Total(two, NamePart) == 1.0;
  }
}
