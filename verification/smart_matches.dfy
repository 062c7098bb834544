/** The smart-matches ranking (src/pages/SmartMatches.jsx:16-38) and the
    score badge helpers (src/pages/SmartMatches.jsx:47-59). */
module SmartMatches {
  import opened Records
  import opened AiMatcher
  import opened Sorting
  import Scoring
  import Seqs

  /** The sort order of the comparator: compatibility score, then match score. */
  function RankKey(m: MatchResult): Key {
    Key(m.compatibilityScore, m.matchScore)
  }

  /** The matcher applied with the signed-in user fixed. */
  function ScoreFor(user: Profile): Profile -> MatchResult {
    o => MatchUsers(user, o)
  }

  /** `otherUsers.map(otherUser => aiMatchUsers(user, otherUser))`. */
  function ScoreAll(score: Profile -> MatchResult, candidates: seq<Profile>): (r: seq<MatchResult>)
    ensures |r| == |candidates|
    ensures forall i :: 0 <= i < |r| ==> r[i] == score(candidates[i])
  {
    if candidates == [] then []
    else [score(candidates[0])] + ScoreAll(score, candidates[1..])
  }

  predicate HasMatches(m: MatchResult) {
    |m.allMatches| > 0
  }

  /** The scored candidates that share at least one match, before sorting. */
  function Matched(user: Profile, allUsers: seq<Profile>): (r: seq<MatchResult>)
  {
    Seqs.Filter(ScoreAll(ScoreFor(user), WithoutUser(allUsers, user.id)), HasMatches)
  }

  /** Filtering scored candidates keeps exactly the scores that have a match. */
  lemma ScoredMembers(f: Profile -> MatchResult, cs: seq<Profile>)
    ensures forall m :: m in Seqs.Filter(ScoreAll(f, cs), HasMatches) ==>
              HasMatches(m) && exists c :: c in cs && m == f(c)
    ensures forall c :: c in cs && HasMatches(f(c)) ==> f(c) in Seqs.Filter(ScoreAll(f, cs), HasMatches)
  {
    var scored := ScoreAll(f, cs);
    forall m | m in Seqs.Filter(scored, HasMatches)
      ensures HasMatches(m) && exists c :: c in cs && m == f(c)
    {
      var i :| 0 <= i < |scored| && scored[i] == m;
      assert cs[i] in cs && m == f(cs[i]);
    }
    forall c | c in cs && HasMatches(f(c))
      ensures f(c) in Seqs.Filter(scored, HasMatches)
    {
      var i :| 0 <= i < |cs| && cs[i] == c;
      assert scored[i] == f(c);
    }
  }

  /** What is kept is exactly the scores of other users that share a match. */
  lemma MatchedMembers(user: Profile, allUsers: seq<Profile>)
    ensures forall m :: m in Matched(user, allUsers) ==>
              HasMatches(m) && m.user in allUsers && m.user.id != user.id && m == MatchUsers(user, m.user)
    ensures forall o :: o in allUsers && o.id != user.id && HasMatches(MatchUsers(user, o)) ==>
              MatchUsers(user, o) in Matched(user, allUsers)
  {
    var f := ScoreFor(user);
    var others := WithoutUser(allUsers, user.id);
    ScoredMembers(f, others);
    forall m | m in Matched(user, allUsers)
      ensures HasMatches(m) && m.user in allUsers && m.user.id != user.id && m == MatchUsers(user, m.user)
    {
      var c :| c in others && m == f(c);
      assert m == MatchUsers(user, c);
    }
    forall o | o in allUsers && o.id != user.id && HasMatches(MatchUsers(user, o))
      ensures MatchUsers(user, o) in Matched(user, allUsers)
    {
      assert o in others && f(o) == MatchUsers(user, o);
    }
  }

  /** The comparator `b.compatibilityScore - a.compatibilityScore ||
      b.matchScore - a.matchScore` under the stable `Array.prototype.sort`. */
  function Rank(ms: seq<MatchResult>): (r: seq<MatchResult>)
    ensures forall m :: m in r <==> m in ms
    ensures forall i, j :: 0 <= i < j < |r| ==>
              || r[i].compatibilityScore > r[j].compatibilityScore
              || (r[i].compatibilityScore == r[j].compatibilityScore && r[i].matchScore >= r[j].matchScore)
    ensures multiset(r) == multiset(ms)
    ensures forall k :: WithKey(r, RankKey, k) == WithKey(ms, RankKey, k)
  {
    var r := SortDesc(ms, RankKey);
    SortDescMembers(ms, RankKey);
    assert forall i, j :: 0 <= i < j < |r| ==> Ge(RankKey(r[i]), RankKey(r[j]));
    r
  }

  /** `loadMatches` without its delay: score every other user, drop those
      without a match, and rank the rest. */
  function LoadMatches(user: Profile, allUsers: seq<Profile>): (r: seq<MatchResult>)
    ensures forall i :: 0 <= i < |r| ==> r[i].user.id != user.id && r[i].user in allUsers
    ensures forall i, j :: 0 <= i < j < |r| ==>
              || r[i].compatibilityScore > r[j].compatibilityScore
              || (r[i].compatibilityScore == r[j].compatibilityScore && r[i].matchScore >= r[j].matchScore)
  {
    MatchedMembers(user, allUsers);
    Rank(Matched(user, allUsers))
  }

  /** Every listed entry is the matcher's own result for that user, with at
      least one match. */
  lemma LoadMatchesSound(user: Profile, allUsers: seq<Profile>)
    ensures forall m :: m in LoadMatches(user, allUsers) ==>
              |m.allMatches| > 0 && m == MatchUsers(user, m.user)
  {
    MatchedMembers(user, allUsers);
  }

  /** Every other user who shares at least one match is listed. */
  lemma LoadMatchesComplete(user: Profile, allUsers: seq<Profile>, o: Profile)
    requires o in allUsers && o.id != user.id
    requires |MatchUsers(user, o).allMatches| > 0
    ensures MatchUsers(user, o) in LoadMatches(user, allUsers)
  {
    MatchedMembers(user, allUsers);
  }

  /** `getCompatibilityColor`. */
  function CompatibilityColor(score: int): (r: string)
    ensures r == "#4caf50" <==> score >= 80
    ensures r == "#4a90e2" <==> 60 <= score < 80
    ensures r == "#ff9800" <==> 40 <= score < 60
    ensures r == "#999" <==> score < 40
  {
    match Scoring.BandOf(score)
    case Top => "#4caf50"
    case High => "#4a90e2"
    case Middle => "#ff9800"
    case Low => "#999"
  }

  /** `getCompatibilityLabel`. */
  function CompatibilityLabel(score: int): (r: string)
    ensures r == "Excellent" <==> score >= 80
    ensures r == "Great" <==> 60 <= score < 80
    ensures r == "Good" <==> 40 <= score < 60
    ensures r == "Fair" <==> score < 40
  {
    match Scoring.BandOf(score)
    case Top => "Excellent"
    case High => "Great"
    case Middle => "Good"
    case Low => "Fair"
  }
}
