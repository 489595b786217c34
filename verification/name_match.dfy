/**
 The binary name score of the evaluation: both names are lower-cased and the
 score is 1.0 when either one occurs inside the other, 0.0 otherwise.
 */
module NameMatch {
  import opened Text

  /** The score of one predicted full name against the ground-truth one. */
  function NameScore(gtName: string, predName: string): (r: real)
    ensures r == 0.0 || r == 1.0
    ensures r == 1.0 <==> Occurs(Lower(gtName), Lower(predName)) || Occurs(Lower(predName), Lower(gtName))
  {
    var gt := Lower(gtName);
    var pred := Lower(predName);
    if IsSubstring(gt, pred) || IsSubstring(pred, gt) then 1.0 else 0.0
  }

  /** Swapping the two names never changes the score. */
  lemma NameScoreSymmetric(a: string, b: string)
    ensures NameScore(a, b) == NameScore(b, a)
  {
  }

  /** An empty prediction (also what a missing one falls back to) always
      scores 1.0, since the empty string occurs in every string. */
  lemma EmptyPredictionScoresOne(gtName: string)
    ensures NameScore(gtName, "") == 1.0
  {
    assert OccursAt(Lower(""), Lower(gtName), 0);
  }

  /** Names that differ only in letter case score 1.0. */
  lemma CaseVariantScoresOne(a: string, b: string)
    requires Lower(a) == Lower(b)
    ensures NameScore(a, b) == 1.0
  {
    assert OccursAt(Lower(a), Lower(b), 0);
  }

  /** "john" occurs in "John Smith" once lower-cased: score 1.0. */
  lemma JohnSmithExample(gtName: string, predName: string)
    requires gtName == "John Smith" && predName == "john"
    ensures NameScore(gtName, predName) == 1.0
  {
    assert Lower(gtName) == "john smith";
    assert Lower(predName) == "john";
    assert OccursAt(Lower(predName), Lower(gtName), 0);
  }

  /** "Jane" and "John" share the length 4 and differ, so neither occurs in
      the other: score 0.0. */
  lemma JaneJohnExample(gtName: string, predName: string)
    requires gtName == "Jane" && predName == "John"
    ensures NameScore(gtName, predName) == 0.0
  {
    var g := Lower(gtName);
    var p := Lower(predName);
    assert g == "jane" && p == "john";
    assert p[1] != g[1];
    assert !OccursAt(g, p, 0) && !OccursAt(p, g, 0);
  }
}
