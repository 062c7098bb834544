/** The 0-100 compatibility score (src/utils/aiMatcher.js:101-128) and the
    four score bands shared by the explanation and the match badges. The
    source computes in IEEE-754 doubles; this model computes exactly in reals. */
module Scoring {

  function Min(a: int, b: int): int {
    if a <= b then a else b
  }

  function Max(a: int, b: int): int {
    if a >= b then a else b
  }

  /** `Math.min(t, l) / Math.max(t, l, 1)`: how evenly a profile teaches and learns. */
  function Balance(teach: nat, learn: nat): (r: real)
    ensures 0.0 <= r <= 1.0
    ensures teach == 0 || learn == 0 ==> r == 0.0
    ensures r == 1.0 <==> teach == learn && teach > 0
  {
    Min(teach, learn) as real / Max(Max(teach, learn), 1) as real
  }

  /** `Math.min(userTotal, otherTotal) / 10`. */
  function Diversity(userTeach: nat, userLearn: nat, otherTeach: nat, otherLearn: nat): (r: real)
    ensures r * 10.0 <= (userTeach + userLearn) as real
    ensures r * 10.0 <= (otherTeach + otherLearn) as real
    ensures r * 10.0 == (userTeach + userLearn) as real || r * 10.0 == (otherTeach + otherLearn) as real
  {
    Min(userTeach + userLearn, otherTeach + otherLearn) as real / 10.0
  }

  /** The score before rounding and capping. */
  function RawScore(exact: nat, related: nat, userTeach: nat, userLearn: nat,
                    otherTeach: nat, otherLearn: nat): (r: real)
    ensures r >= (exact * 25 + related * 10) as real
                 + Diversity(userTeach, userLearn, otherTeach, otherLearn) * 5.0
    ensures r <= (exact * 25 + related * 10) as real + 20.0
                 + Diversity(userTeach, userLearn, otherTeach, otherLearn) * 5.0
    ensures userTeach == userLearn > 0 && otherTeach == otherLearn > 0 ==>
              r == (exact * 25 + related * 10) as real + 20.0
                   + Diversity(userTeach, userLearn, otherTeach, otherLearn) * 5.0
    ensures (userTeach == 0 || userLearn == 0) && (otherTeach == 0 || otherLearn == 0) ==>
              r == (exact * 25 + related * 10) as real
                   + Diversity(userTeach, userLearn, otherTeach, otherLearn) * 5.0
  {
    (exact * 25) as real + (related * 10) as real
    + (Balance(userTeach, userLearn) + Balance(otherTeach, otherLearn)) * 10.0
    + Diversity(userTeach, userLearn, otherTeach, otherLearn) * 5.0
  }

  /** `Math.round`: the nearest integer, halves rounded up. */
  function Round(x: real): (r: int)
    ensures r as real - 0.5 <= x < r as real + 0.5
  {
    (x + 0.5).Floor
  }

  /** `calculateCompatibilityScore`: `Math.min(Math.round(score), 100)`. */
  function CompatibilityScore(exact: nat, related: nat, userTeach: nat, userLearn: nat,
                              otherTeach: nat, otherLearn: nat): (r: int)
    ensures 0 <= r <= 100
    ensures var raw := RawScore(exact, related, userTeach, userLearn, otherTeach, otherLearn);
            if raw >= 99.5 then r == 100 else r as real - 0.5 <= raw < r as real + 0.5
  {
    Min(Round(RawScore(exact, related, userTeach, userLearn, otherTeach, otherLearn)), 100)
  }

  lemma BalanceSymmetric(teach: nat, learn: nat)
    ensures Balance(teach, learn) == Balance(learn, teach)
  {
  }

  /** Rounding never decreases when its argument grows. */
  lemma RoundMonotone(x: real, y: real)
    requires x <= y
    ensures Round(x) <= Round(y)
  {
  }

  /** One more exact or related match never lowers the score. */
  lemma ScoreMonotone(exact: nat, related: nat, exact': nat, related': nat,
                      userTeach: nat, userLearn: nat, otherTeach: nat, otherLearn: nat)
    requires exact <= exact' && related <= related'
    ensures CompatibilityScore(exact, related, userTeach, userLearn, otherTeach, otherLearn)
            <= CompatibilityScore(exact', related', userTeach, userLearn, otherTeach, otherLearn)
  {
    var rest := (Balance(userTeach, userLearn) + Balance(otherTeach, otherLearn)) * 10.0
                + Diversity(userTeach, userLearn, otherTeach, otherLearn) * 5.0;
    var x := RawScore(exact, related, userTeach, userLearn, otherTeach, otherLearn);
    var y := RawScore(exact', related', userTeach, userLearn, otherTeach, otherLearn);
    assert x == (exact * 25) as real + (related * 10) as real + rest;
    assert y == (exact' * 25) as real + (related' * 10) as real + rest;
    assert exact * 25 <= exact' * 25 && related * 10 <= related' * 10;
    RoundMonotone(x, y);
  }

  /** Four exact matches alone reach the cap. */
  lemma FourExactMatchesSaturate(exact: nat, related: nat, userTeach: nat, userLearn: nat,
                                 otherTeach: nat, otherLearn: nat)
    requires exact >= 4
    ensures CompatibilityScore(exact, related, userTeach, userLearn, otherTeach, otherLearn) == 100
  {
  }

  /** The four bands cut at 80, 60 and 40. */
  datatype Band = Top | High | Middle | Low

  function BandOf(score: int): (b: Band)
    ensures b == Top <==> score >= 80
    ensures b == High <==> 60 <= score < 80
    ensures b == Middle <==> 40 <= score < 60
    ensures b == Low <==> score < 40
  {
    if score >= 80 then Top
    else if score >= 60 then High
    else if score >= 40 then Middle
    else Low
  }
}
