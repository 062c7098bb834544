/** `aiMatchUsers` (src/utils/aiMatcher.js:2-51): everything the matcher
    reports about one candidate for one requester. */
module AiMatcher {
  import opened Records
  import opened Matching
  import Scoring
  import Explain
  import Seqs
  import Strings

  datatype MatchResult = MatchResult(
    user: Profile,
    exactMatches: seq<MatchRecord>,
    relatedMatches: seq<MatchRecord>,
    allMatches: seq<MatchRecord>,
    matchScore: real,
    compatibilityScore: int,
    aiExplanation: string,
    aiRecommendations: seq<string>)

  /** Related matches: the requester-teaches call's records, then the
      candidate-teaches call's, with no de-duplication between the two. */
  function RelatedMatches(user: Profile, other: Profile): (r: seq<MatchRecord>)
    ensures |r| <= |user.Teach()| * |other.Learn()| + |other.Teach()| * |user.Learn()|
    ensures forall i :: 0 <= i < |r| ==> r[i].kind.Related?
    ensures forall i :: 0 <= i < |r| ==>
              r[i].direction == if i < |FindRelated(user.Teach(), other.Learn(), YouTeach)| then YouTeach else TheyTeach
    ensures forall t, l :: t in user.Teach() && l in other.Learn() && RelatedPair(t, l) ==> Covered(r, t, l)
    ensures forall t, l :: t in other.Teach() && l in user.Learn() && RelatedPair(t, l) ==> Covered(r, t, l)
    ensures var a := FindRelated(user.Teach(), other.Learn(), YouTeach);
            |a| <= |r| && r[..|a|] == a && r[|a|..] == FindRelated(other.Teach(), user.Learn(), TheyTeach)
  {
    var a := FindRelated(user.Teach(), other.Learn(), YouTeach);
    var b := FindRelated(other.Teach(), user.Learn(), TheyTeach);
    CoveredConcat(a, b);
    a + b
  }

  lemma CoveredConcat(a: seq<MatchRecord>, b: seq<MatchRecord>)
    ensures forall t, l :: Covered(a, t, l) ==> Covered(a + b, t, l)
    ensures forall t, l :: Covered(b, t, l) ==> Covered(a + b, t, l)
  {
    forall t, l | Covered(b, t, l) ensures Covered(a + b, t, l) {
      var i :| 0 <= i < |b| && Strings.Contains(b[i].skill, t) && Strings.Contains(b[i].skill, l);
      assert (a + b)[|a| + i] == b[i];
    }
    forall t, l | Covered(a, t, l) ensures Covered(a + b, t, l) {
      var i :| 0 <= i < |a| && Strings.Contains(a[i].skill, t) && Strings.Contains(a[i].skill, l);
      assert (a + b)[i] == a[i];
    }
  }

  /** `matchScore`: exact matches count 1, related matches count one half. */
  function MatchScore(exactCount: nat, relatedCount: nat): (r: real)
    ensures r >= exactCount as real && r >= 0.0
    ensures r * 2.0 == (2 * exactCount + relatedCount) as real
  {
    exactCount as real + relatedCount as real * 0.5
  }

  function MatchUsers(user: Profile, other: Profile): (r: MatchResult)
    ensures r.user == other
    ensures r.exactMatches == ExactMatches(user.Teach(), user.Learn(), other.Teach(), other.Learn())
    ensures r.relatedMatches == RelatedMatches(user, other)
    ensures r.allMatches == r.exactMatches + r.relatedMatches
    ensures 0 <= r.compatibilityScore <= 100
    ensures r.matchScore * 2.0 == (2 * |r.exactMatches| + |r.relatedMatches|) as real
    ensures Skills(r.exactMatches) == Seqs.Filter(user.Teach(), MemberOf(other.Learn()))
                                     + Seqs.Filter(other.Teach(), MemberOf(user.Learn()))
    ensures forall i :: 0 <= i < |r.exactMatches| ==> r.exactMatches[i].kind == Exact
    ensures forall i :: 0 <= i < |r.relatedMatches| ==> r.relatedMatches[i].kind.Related?
    ensures r.allMatches == [] <==> r.exactMatches == [] && r.relatedMatches == []
    ensures r.compatibilityScore == Scoring.CompatibilityScore(|r.exactMatches|, |r.relatedMatches|,
              |user.Teach()|, |user.Learn()|, |other.Teach()|, |other.Learn()|)
    ensures r.aiExplanation == Explain.Explanation(|r.exactMatches|, |r.relatedMatches|, r.compatibilityScore)
    ensures r.aiRecommendations == Explain.Recommendations(user, other, |r.exactMatches|, |r.relatedMatches|)
  {
    var ut, ul, ot, ol := user.Teach(), user.Learn(), other.Teach(), other.Learn();
    var exact := ExactMatches(ut, ul, ot, ol);
    var related := RelatedMatches(user, other);
    var score := Scoring.CompatibilityScore(|exact|, |related|, |ut|, |ul|, |ot|, |ol|);
    MatchResult(
      other,
      exact,
      related,
      exact + related,
      MatchScore(|exact|, |related|),
      score,
      Explain.Explanation(|exact|, |related|, score),
      Explain.Recommendations(user, other, |exact|, |related|))
  }

  /** A candidate with no skills on either list shares nothing with anyone. */
  lemma NoSkillsNoMatches(user: Profile, other: Profile)
    requires other.Teach() == [] && other.Learn() == []
    ensures MatchUsers(user, other).allMatches == []
    ensures MatchUsers(user, other).aiRecommendations == [Explain.AddMoreSkills]
  {
    ExactForEmpty(user.Teach(), YouTeach);
    ExactForEmpty(user.Learn(), TheyTeach);
    FindRelatedEmptyLearn(user.Teach(), YouTeach);
    FindRelatedEmptyTeach(user.Learn(), TheyTeach);
  }

  /** Exact matching is symmetric: what A teaches B when A is the requester
      is what B learns from A when B is the requester. */
  lemma ExactSymmetry(a: Profile, b: Profile)
    ensures var ab := ExactMatches(a.Teach(), a.Learn(), b.Teach(), b.Learn());
            var ba := ExactMatches(b.Teach(), b.Learn(), a.Teach(), a.Learn());
            var k := |Seqs.Filter(a.Teach(), MemberOf(b.Learn()))|;
            var m := |Seqs.Filter(b.Teach(), MemberOf(a.Learn()))|;
            && |ab| == |ba| == k + m
            && (forall i :: 0 <= i < k ==>
                  ab[i].skill == ba[m + i].skill && ab[i].direction == YouTeach && ba[m + i].direction == TheyTeach)
            && (forall i :: 0 <= i < m ==>
                  ab[k + i].skill == ba[i].skill && ab[k + i].direction == TheyTeach && ba[i].direction == YouTeach)
  {
    var ab := ExactMatches(a.Teach(), a.Learn(), b.Teach(), b.Learn());
    var ba := ExactMatches(b.Teach(), b.Learn(), a.Teach(), a.Learn());
    var x := Seqs.Filter(a.Teach(), MemberOf(b.Learn()));
    var y := Seqs.Filter(b.Teach(), MemberOf(a.Learn()));
    assert Skills(ab) == x + y;
    assert Skills(ba) == y + x;
    forall i | 0 <= i < |x| ensures ab[i].skill == ba[|y| + i].skill {
      assert Skills(ab)[i] == (x + y)[i] == x[i];
      assert Skills(ba)[|y| + i] == (y + x)[|y| + i] == x[i];
    }
    forall i | 0 <= i < |y| ensures ab[|x| + i].skill == ba[i].skill {
      assert Skills(ab)[|x| + i] == (x + y)[|x| + i] == y[i];
      assert Skills(ba)[i] == (y + x)[i] == y[i];
    }
  }
}
