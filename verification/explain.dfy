/** The explanation sentence and the recommendation list of a match
    (src/utils/aiMatcher.js:130-187). Both depend on the match lists only
    through their lengths, so they take the counts. */
module Explain {
  import opened Strings
  import opened Scoring
  import opened Records
  import Seqs

  /** A string ends with what was appended to it. */
  lemma EndsWithConcat(head: string, tail: string)
    ensures EndsWith(head + tail, tail)
  {
    assert (head + tail)[|head|..] == tail;
  }

  /** The exact-match sentence: the count, then "match" or, from two on, "matches". */
  function ExactSentence(n: nat): (r: string)
    ensures "Perfect skill alignment! " + NatToString(n) + " exact " <= r
    ensures EndsWith(r, if n > 1 then "matches found." else "match found.")
    ensures |r| == |"Perfect skill alignment! " + NatToString(n) + " exact "|
                   + |if n > 1 then "matches found." else "match found."|
  {
    var head := "Perfect skill alignment! " + NatToString(n) + " exact ";
    var tail := if n > 1 then "matches found." else "match found.";
    EndsWithConcat(head, tail);
    head + tail
  }

  /** The related-match sentence: the count, then "skill" or, from two on, "skills". */
  function RelatedSentence(n: nat): (r: string)
    ensures "AI detected " + NatToString(n) + " complementary " <= r
    ensures EndsWith(r, if n > 1 then "skills that could lead to great exchanges."
                        else "skill that could lead to great exchanges.")
    ensures |r| == |"AI detected " + NatToString(n) + " complementary "|
                   + |if n > 1 then "skills that could lead to great exchanges."
                      else "skill that could lead to great exchanges."|
  {
    var head := "AI detected " + NatToString(n) + " complementary ";
    var tail := if n > 1 then "skills that could lead to great exchanges."
                else "skill that could lead to great exchanges.";
    EndsWithConcat(head, tail);
    head + tail
  }

  /** The closing sentence for each score band. */
  function TierSentence(b: Band): string {
    match b
    case Top => "This is an excellent match with high compatibility potential!"
    case High => "Good match with solid potential for skill exchange."
    case Middle => "Moderate match with some complementary skills."
    case Low => "Potential match with room for growth."
  }

  /** The four closing sentences differ, so the sentence names the band. */
  lemma TierSentencesDistinct(a: Band, b: Band)
    ensures TierSentence(a) == TierSentence(b) ==> a == b
  {
    if TierSentence(a) == TierSentence(b) {
      assert TierSentence(a)[0] == TierSentence(b)[0];
    }
  }

  /** The `explanations` array before it is joined. */
  function ExplanationParts(exactCount: nat, relatedCount: nat, score: int): (r: seq<string>)
    ensures |r| == (if exactCount > 0 then 1 else 0) + (if relatedCount > 0 then 1 else 0) + 1
    ensures exactCount > 0 ==> r[0] == ExactSentence(exactCount)
    ensures relatedCount > 0 ==> r[|r| - 2] == RelatedSentence(relatedCount)
    ensures r[|r| - 1] == TierSentence(BandOf(score))
  {
    (if exactCount > 0 then [ExactSentence(exactCount)] else [])
    + (if relatedCount > 0 then [RelatedSentence(relatedCount)] else [])
    + [TierSentence(BandOf(score))]
  }

  /** `generateAIExplanation`: the parts joined by single spaces. */
  function Explanation(exactCount: nat, relatedCount: nat, score: int): (r: string)
    ensures exactCount > 0 ==> ExactSentence(exactCount) + " " <= r
    ensures exactCount == 0 && relatedCount > 0 ==> RelatedSentence(relatedCount) + " " <= r
    ensures exactCount == 0 && relatedCount == 0 ==> r == TierSentence(BandOf(score))
    ensures EndsWith(r, " " + TierSentence(BandOf(score))) || r == TierSentence(BandOf(score))
    ensures exactCount > 0 && relatedCount > 0 ==>
              r == ExactSentence(exactCount) + " " + RelatedSentence(relatedCount) + " " + TierSentence(BandOf(score))
    ensures exactCount > 0 && relatedCount == 0 ==> r == ExactSentence(exactCount) + " " + TierSentence(BandOf(score))
    ensures exactCount == 0 && relatedCount > 0 ==> r == RelatedSentence(relatedCount) + " " + TierSentence(BandOf(score))
  {
    var parts := ExplanationParts(exactCount, relatedCount, score);
    JoinShape(parts, " ");
    JoinSmall(parts, " ");
    Join(parts, " ")
  }

  /** Joining two or three parts spells out the separators. */
  lemma JoinSmall(parts: seq<string>, sep: string)
    ensures |parts| == 2 ==> Join(parts, sep) == parts[0] + sep + parts[1]
    ensures |parts| == 3 ==> Join(parts, sep) == parts[0] + sep + parts[1] + sep + parts[2]
  {
    if |parts| == 3 {
      assert parts[1..][1..] == [parts[2]];
      assert Join(parts[1..], sep) == parts[1] + sep + parts[2];
    }
  }

  predicate EndsWith(s: string, suffix: string) {
    |suffix| <= |s| && s[|s| - |suffix|..] == suffix
  }

  lemma {:induction false} JoinShape(parts: seq<string>, sep: string)
    requires |parts| >= 1
    ensures |parts| >= 2 ==> parts[0] + sep <= Join(parts, sep)
    ensures |parts| >= 2 ==> EndsWith(Join(parts, sep), sep + parts[|parts| - 1])
    decreases |parts|
  {
    if |parts| >= 2 {
      var rest := Join(parts[1..], sep);
      var j := Join(parts, sep);
      var suffix := sep + parts[|parts| - 1];
      assert j == (parts[0] + sep) + rest;
      if |parts| == 2 {
        assert rest == parts[1];
        assert j == parts[0] + suffix;
        assert j[|j| - |suffix|..] == suffix;
      } else {
        JoinShape(parts[1..], sep);
        assert parts[1..][|parts[1..]| - 1] == parts[|parts| - 1];
        assert EndsWith(rest, suffix);
        assert j[|j| - |suffix|..] == rest[|rest| - |suffix|..];
      }
    }
  }

  const AddMoreSkills := "Consider adding more skills to your profile to find better matches."
  const ReachOut := "Great match!" + " Consider reaching out to start your skill exchange journey."

  /** The test `!list.includes(skill)` as a predicate on skills. */
  function NotIn(list: seq<string>): string -> bool {
    s => s !in list
  }

  /** What the candidate teaches that the requester does not already want. */
  function Learnable(user: Profile, other: Profile): (r: seq<string>)
    ensures Seqs.IsSubsequence(r, other.Teach())
    ensures forall s :: s in r <==> s in other.Teach() && s !in user.Learn()
    ensures forall s :: s !in user.Learn() ==> multiset(r)[s] == multiset(other.Teach())[s]
  {
    Seqs.FilterKeepsOrderAndCopies(other.Teach(), NotIn(user.Learn()));
    Seqs.Filter(other.Teach(), NotIn(user.Learn()))
  }

  /** What the candidate wants that the requester does not already teach. */
  function Teachable(user: Profile, other: Profile): (r: seq<string>)
    ensures Seqs.IsSubsequence(r, other.Learn())
    ensures forall s :: s in r <==> s in other.Learn() && s !in user.Teach()
    ensures forall s :: s !in user.Teach() ==> multiset(r)[s] == multiset(other.Learn())[s]
  {
    Seqs.FilterKeepsOrderAndCopies(other.Learn(), NotIn(user.Teach()));
    Seqs.Filter(other.Learn(), NotIn(user.Teach()))
  }

  /** `list.slice(0, 3).join(', ')`. */
  function FirstThree(list: seq<string>): (r: string)
    ensures list == [] ==> r == ""
    ensures |list| == 1 ==> r == list[0]
    ensures list != [] ==> list[0] <= r
    ensures |list| == 2 ==> r == list[0] + ", " + list[1]
    ensures |list| >= 3 ==> r == list[0] + ", " + list[1] + ", " + list[2]
  {
    var shown := Seqs.Take(list, 3);
    assert list != [] ==> shown[0] == list[0];
    JoinSmall(shown, ", ");
    Join(shown, ", ")
  }

  /** `generateAIRecommendations`. */
  function Recommendations(user: Profile, other: Profile, exactCount: nat, relatedCount: nat): (r: seq<string>)
    ensures exactCount == 0 && relatedCount == 0 ==> r == [AddMoreSkills]
    ensures exactCount > 0 || relatedCount > 0 ==> 1 <= |r| <= 2
    ensures exactCount > 0 || relatedCount > 0 ==>
              (r == [ReachOut] <==> Learnable(user, other) == [] && Teachable(user, other) == [])
    ensures (exactCount > 0 || relatedCount > 0) && Learnable(user, other) != [] ==>
              r[0] == "Consider learning: " + FirstThree(Learnable(user, other))
    ensures (exactCount > 0 || relatedCount > 0) && Teachable(user, other) != [] ==>
              r[|r| - 1] == "You could teach: " + FirstThree(Teachable(user, other))
    ensures (exactCount > 0 || relatedCount > 0) && (Learnable(user, other) != [] || Teachable(user, other) != []) ==>
              |r| == (if Learnable(user, other) != [] then 1 else 0) + (if Teachable(user, other) != [] then 1 else 0)
  {
    if exactCount == 0 && relatedCount == 0 then [AddMoreSkills]
    else
      var learn := Learnable(user, other);
      var teach := Teachable(user, other);
      var recs := (if learn != [] then ["Consider learning: " + FirstThree(learn)] else [])
                  + (if teach != [] then ["You could teach: " + FirstThree(teach)] else []);
      assert ReachOut[0] == 'G';
      assert learn != [] ==> recs[0][0] == 'C';
      assert learn == [] && teach != [] ==> recs[0][0] == 'Y';
      if recs == [] then [ReachOut] else recs
  }

  /** A candidate whose skills the requester already lists on the matching
      side gets only the closing encouragement. */
  lemma NothingNewToSuggest(user: Profile, other: Profile, exactCount: nat, relatedCount: nat)
    requires exactCount > 0 || relatedCount > 0
    requires forall s :: s in other.Teach() ==> s in user.Learn()
    requires forall s :: s in other.Learn() ==> s in user.Teach()
    ensures Recommendations(user, other, exactCount, relatedCount) == [ReachOut]
  {
  }

  /** A skill the candidate teaches and the requester does not yet want
      makes the first line a learning suggestion; the first such skill in
      the candidate's list leads it. */
  lemma SuggestsNewSkill(user: Profile, other: Profile, exactCount: nat, relatedCount: nat, s: string)
    requires exactCount > 0 || relatedCount > 0
    requires s in other.Teach() && s !in user.Learn()
    ensures Learnable(user, other) != []
    ensures "Consider learning: " + Learnable(user, other)[0] <= Recommendations(user, other, exactCount, relatedCount)[0]
  {
    var learn := Learnable(user, other);
    assert s in learn;
    var first := FirstThree(learn);
    assert learn[0] <= first;
    assert "Consider learning: " + learn[0] <= "Consider learning: " + first;
  }

  /** A recommendation line names at most three skills: once three are
      listed, the skills after them change nothing. */
  lemma SuggestionsShape(list: seq<string>, more: seq<string>)
    requires |list| >= 3
    ensures FirstThree(list) == FirstThree(list[..3])
    ensures FirstThree(list + more) == FirstThree(list)
  {
  }
}
