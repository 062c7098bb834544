/** Exact and related skill matches between two profiles
    (src/utils/aiMatcher.js:8-23 and 53-99). */
module Matching {
  import opened Strings
  import opened Taxonomy
  import Seqs

  /** `type: 'you_teach'` or `type: 'they_teach'`. */
  datatype Direction = YouTeach | TheyTeach

  /** `matchType: 'exact'`, or `matchType: 'related'` with its `category`. */
  datatype MatchKind = Exact | Related(category: Category)

  datatype MatchRecord = MatchRecord(skill: string, direction: Direction, kind: MatchKind)

  /** The skill names of a list of records. */
  function Skills(ms: seq<MatchRecord>): (r: seq<string>)
    ensures |r| == |ms|
    ensures forall i :: 0 <= i < |ms| ==> r[i] == ms[i].skill
  {
    seq(|ms|, i requires 0 <= i < |ms| => ms[i].skill)
  }

  lemma SkillsConcat(a: seq<MatchRecord>, b: seq<MatchRecord>)
    ensures Skills(a + b) == Skills(a) + Skills(b)
  {
  }

  lemma ConcatDirections(a: seq<MatchRecord>, b: seq<MatchRecord>, da: Direction, db: Direction)
    requires forall i :: 0 <= i < |a| ==> a[i].direction == da && a[i].kind == Exact
    requires forall i :: 0 <= i < |b| ==> b[i].direction == db && b[i].kind == Exact
    ensures forall i :: 0 <= i < |a + b| ==> (a + b)[i].kind == Exact
    ensures forall i :: 0 <= i < |a + b| ==> (a + b)[i].direction == if i < |a| then da else db
  {
  }

  /** The test `list.includes(skill)` as a predicate on skills. */
  function MemberOf(list: seq<string>): string -> bool {
    s => s in list
  }

  // ---------------------------------------------------------------- exact

  /** `teach.forEach(skill => { if (learn.includes(skill)) push(...) })`:
      one exact record per element of `teach` that literally occurs in
      `learn`, in the order of `teach`. Equality is case-sensitive and
      untrimmed, and a skill listed twice is matched twice. */
  function ExactFor(teach: seq<string>, learn: seq<string>, dir: Direction): (r: seq<MatchRecord>)
    ensures Skills(r) == Seqs.Filter(teach, MemberOf(learn))
    ensures forall i :: 0 <= i < |r| ==> r[i].direction == dir && r[i].kind == Exact
    ensures forall i :: 0 <= i < |r| ==> r[i].skill in teach && r[i].skill in learn
  {
    if teach == [] then []
    else
      var rest := ExactFor(teach[1..], learn, dir);
      var head := if teach[0] in learn then [MatchRecord(teach[0], dir, Exact)] else [];
      SkillsConcat(head, rest);
      assert Skills(head) == if teach[0] in learn then [teach[0]] else [];
      assert Seqs.Filter(teach, MemberOf(learn))
             == (if teach[0] in learn then [teach[0]] else []) + Seqs.Filter(teach[1..], MemberOf(learn));
      assert forall x :: x in teach[1..] ==> x in teach;
      head + rest
  }

  /** Exact matches of a pair of profiles: the requester's teachable skills
      the candidate wants, then the candidate's teachable skills the
      requester wants. */
  function ExactMatches(userTeach: seq<string>, userLearn: seq<string>,
                        otherTeach: seq<string>, otherLearn: seq<string>): (r: seq<MatchRecord>)
    ensures |r| == |Seqs.Filter(userTeach, MemberOf(otherLearn))|
                   + |Seqs.Filter(otherTeach, MemberOf(userLearn))|
    ensures Skills(r) == Seqs.Filter(userTeach, MemberOf(otherLearn))
                         + Seqs.Filter(otherTeach, MemberOf(userLearn))
    ensures forall i :: 0 <= i < |r| ==> r[i].kind == Exact
    ensures forall i :: 0 <= i < |r| ==>
              r[i].direction == if i < |Seqs.Filter(userTeach, MemberOf(otherLearn))| then YouTeach else TheyTeach
  {
    var a := ExactFor(userTeach, otherLearn, YouTeach);
    var b := ExactFor(otherTeach, userLearn, TheyTeach);
    SkillsConcat(a, b);
    ConcatDirections(a, b, YouTeach, TheyTeach);
    a + b
  }

  // -------------------------------------------------------------- related

  /** The `skill` string of a related record: `${teachSkill} → ${learnSkill}`. */
  function Arrow(teach: string, learn: string): string {
    teach + " \U{2192} " + learn
  }

  lemma ArrowContainsBoth(teach: string, learn: string)
    ensures Contains(Arrow(teach, learn), teach) && Contains(Arrow(teach, learn), learn)
  {
    ContainsPrefix(teach, " \U{2192} " + learn);
    assert Arrow(teach, learn) == teach + (" \U{2192} " + learn);
    ContainsSuffix(teach + " \U{2192} ", learn);
  }

  /** The duplicate check of the source: some earlier record's `skill`
      contains both names as substrings. */
  predicate Covered(acc: seq<MatchRecord>, teach: string, learn: string) {
    exists i | 0 <= i < |acc| :: Contains(acc[i].skill, teach) && Contains(acc[i].skill, learn)
  }

  /** The `for (const [category, skills] of ...)` loop for one pair: on the
      first category holding both skills the pair is recorded unless it is
      already covered, in which case the loop goes on to the next category. */
  function TryCategories(acc: seq<MatchRecord>, teach: string, learn: string,
                         teachLower: string, learnLower: string,
                         cats: seq<Category>, dir: Direction): (r: seq<MatchRecord>)
    ensures acc <= r && |r| <= |acc| + 1
    ensures Covered(acc, teach, learn) ==> r == acc
    ensures (forall c :: c in cats ==> !Shared(teachLower, learnLower, c)) ==> r == acc
    ensures |r| == |acc| + 1 ==>
              && r[|acc|].skill == Arrow(teach, learn) && r[|acc|].direction == dir
              && r[|acc|].kind.Related? && r[|acc|].kind.category in cats
              && Shared(teachLower, learnLower, r[|acc|].kind.category)
    decreases |cats|
  {
    if cats == [] then acc
    else if Shared(teachLower, learnLower, cats[0]) && !Covered(acc, teach, learn) then
      acc + [MatchRecord(Arrow(teach, learn), dir, Related(cats[0]))]
    else TryCategories(acc, teach, learn, teachLower, learnLower, cats[1..], dir)
  }

  /** The body of the inner `learnSkills.forEach` for one pair. */
  function PairStep(acc: seq<MatchRecord>, teach: string, learn: string, dir: Direction): (r: seq<MatchRecord>)
    ensures acc <= r && |r| <= |acc| + 1
    ensures Lower(teach) == Lower(learn) || Covered(acc, teach, learn) ==> r == acc
  {
    var teachLower := Lower(teach);
    var learnLower := Lower(learn);
    if teachLower == learnLower then acc
    else TryCategories(acc, teach, learn, teachLower, learnLower, Categories, dir)
  }

  /** The inner `learnSkills.forEach`: one pair step per learn skill, in order. */
  function LearnLoop(acc: seq<MatchRecord>, teach: string, learn: seq<string>, dir: Direction): (r: seq<MatchRecord>)
    ensures acc <= r
    decreases |learn|
  {
    if learn == [] then acc
    else LearnLoop(PairStep(acc, teach, learn[0], dir), teach, learn[1..], dir)
  }

  /** The outer `teachSkills.forEach`: one inner loop per teach skill, in order. */
  function TeachLoop(acc: seq<MatchRecord>, teach: seq<string>, learn: seq<string>, dir: Direction): (r: seq<MatchRecord>)
    ensures acc <= r
    decreases |teach|
  {
    if teach == [] then acc
    else TeachLoop(LearnLoop(acc, teach[0], learn, dir), teach[1..], learn, dir)
  }

  /** A pair the matcher considers related: different once lower-cased and
      sharing a category. */
  predicate RelatedPair(teach: string, learn: string) {
    Lower(teach) != Lower(learn) && FirstShared(Lower(teach), Lower(learn)).Some?
  }

  /** `m` is the record the matcher writes for some pair of `teach` × `learn`. */
  ghost predicate FromPair(m: MatchRecord, teach: seq<string>, learn: seq<string>, dir: Direction) {
    exists t, l :: t in teach && l in learn && RelatedPair(t, l)
                   && m == MatchRecord(Arrow(t, l), dir, Related(FirstShared(Lower(t), Lower(l)).value))
  }

  ghost predicate AllFromPairs(ms: seq<MatchRecord>, teach: seq<string>, learn: seq<string>, dir: Direction) {
    forall i :: 0 <= i < |ms| ==> FromPair(ms[i], teach, learn, dir)
  }

  ghost predicate DistinctSkills(ms: seq<MatchRecord>) {
    forall i, j :: 0 <= i < j < |ms| ==> ms[i].skill != ms[j].skill
  }

  /** `findRelatedSkills(teachSkills, learnSkills, type)`. */
  function FindRelated(teach: seq<string>, learn: seq<string>, dir: Direction): (r: seq<MatchRecord>)
    ensures |r| <= |teach| * |learn|
    ensures AllFromPairs(r, teach, learn, dir)
    ensures DistinctSkills(r)
    ensures forall i :: 0 <= i < |r| ==> r[i].direction == dir && r[i].kind.Related?
    ensures forall t, l :: t in teach && l in learn && RelatedPair(t, l) ==> Covered(r, t, l)
  {
    TeachLoopGrows([], teach, learn, dir);
    TeachLoopSound([], teach, learn, dir, teach);
    TeachLoopCovers([], teach, learn, dir);
    var r := TeachLoop([], teach, learn, dir);
    assert forall i :: 0 <= i < |r| ==> r[i].direction == dir && r[i].kind.Related? by {
      forall i | 0 <= i < |r| ensures r[i].direction == dir && r[i].kind.Related? {
        assert FromPair(r[i], teach, learn, dir);
      }
    }
    r
  }

  // ------------------------------------------------------ related: proofs

  /** The category loop amounts to: take the first shared category, and
      record the pair under it unless the pair is already covered. */
  lemma {:induction false} TryCategoriesFirst(acc: seq<MatchRecord>, teach: string, learn: string,
                                              teachLower: string, learnLower: string,
                                              cats: seq<Category>, dir: Direction)
    ensures TryCategories(acc, teach, learn, teachLower, learnLower, cats, dir)
            == match FirstSharedIn(teachLower, learnLower, cats)
               case None => acc
               case Some(c) =>
                 if Covered(acc, teach, learn) then acc
                 else acc + [MatchRecord(Arrow(teach, learn), dir, Related(c))]
    decreases |cats|
  {
    if cats != [] {
      TryCategoriesFirst(acc, teach, learn, teachLower, learnLower, cats[1..], dir);
    }
  }

  lemma PairStepShape(acc: seq<MatchRecord>, teach: string, learn: string, dir: Direction)
    ensures var r := PairStep(acc, teach, learn, dir);
            || r == acc
            || (RelatedPair(teach, learn) && !Covered(acc, teach, learn)
                && r == acc + [MatchRecord(Arrow(teach, learn), dir,
                                           Related(FirstShared(Lower(teach), Lower(learn)).value))])
    ensures RelatedPair(teach, learn) ==> Covered(PairStep(acc, teach, learn, dir), teach, learn)
  {
    if Lower(teach) != Lower(learn) {
      TryCategoriesFirst(acc, teach, learn, Lower(teach), Lower(learn), Categories, dir);
      var r := PairStep(acc, teach, learn, dir);
      if RelatedPair(teach, learn) && !Covered(acc, teach, learn) {
        ArrowContainsBoth(teach, learn);
        assert r[|acc|].skill == Arrow(teach, learn);
      }
    }
  }

  lemma CoveredExtends(acc: seq<MatchRecord>, r: seq<MatchRecord>, teach: string, learn: string)
    requires acc <= r && Covered(acc, teach, learn)
    ensures Covered(r, teach, learn)
  {
    var i :| 0 <= i < |acc| && Contains(acc[i].skill, teach) && Contains(acc[i].skill, learn);
    assert r[i] == acc[i];
  }

  lemma PairStepSound(acc: seq<MatchRecord>, t: string, l: string, dir: Direction,
                      T: seq<string>, L: seq<string>)
    requires t in T && l in L
    requires AllFromPairs(acc, T, L, dir) && DistinctSkills(acc)
    ensures AllFromPairs(PairStep(acc, t, l, dir), T, L, dir)
    ensures DistinctSkills(PairStep(acc, t, l, dir))
  {
    PairStepShape(acc, t, l, dir);
    var r := PairStep(acc, t, l, dir);
    if r != acc {
      var m := MatchRecord(Arrow(t, l), dir, Related(FirstShared(Lower(t), Lower(l)).value));
      assert r == acc + [m];
      AppendFresh(acc, m, t, l, dir, T, L);
    }
  }

  /** Appending the record of an uncovered related pair keeps the records
      sound and their skills distinct. */
  lemma AppendFresh(acc: seq<MatchRecord>, m: MatchRecord, t: string, l: string, dir: Direction,
                    T: seq<string>, L: seq<string>)
    requires t in T && l in L && RelatedPair(t, l) && !Covered(acc, t, l)
    requires m == MatchRecord(Arrow(t, l), dir, Related(FirstShared(Lower(t), Lower(l)).value))
    requires AllFromPairs(acc, T, L, dir) && DistinctSkills(acc)
    ensures AllFromPairs(acc + [m], T, L, dir)
    ensures DistinctSkills(acc + [m])
  {
    AppendSound(acc, m, t, l, dir, T, L);
    AppendDistinct(acc, m, t, l);
  }

  lemma AppendSound(acc: seq<MatchRecord>, m: MatchRecord, t: string, l: string, dir: Direction,
                    T: seq<string>, L: seq<string>)
    requires t in T && l in L && RelatedPair(t, l)
    requires m == MatchRecord(Arrow(t, l), dir, Related(FirstShared(Lower(t), Lower(l)).value))
    requires AllFromPairs(acc, T, L, dir)
    ensures AllFromPairs(acc + [m], T, L, dir)
  {
    var r := acc + [m];
    forall i | 0 <= i < |r| ensures FromPair(r[i], T, L, dir) {
      if i < |acc| {
        assert r[i] == acc[i];
        assert FromPair(acc[i], T, L, dir);
      } else {
        assert r[i] == m;
        assert FromPair(m, T, L, dir) by {
          assert t in T && l in L && RelatedPair(t, l)
                 && m == MatchRecord(Arrow(t, l), dir, Related(FirstShared(Lower(t), Lower(l)).value));
        }
      }
    }
  }

  lemma AppendDistinct(acc: seq<MatchRecord>, m: MatchRecord, t: string, l: string)
    requires !Covered(acc, t, l) && m.skill == Arrow(t, l)
    requires DistinctSkills(acc)
    ensures DistinctSkills(acc + [m])
  {
    ArrowContainsBoth(t, l);
    var r := acc + [m];
    forall i, j | 0 <= i < j < |r| ensures r[i].skill != r[j].skill {
      assert r[i] == acc[i];
      if j < |acc| {
        assert r[j] == acc[j];
      } else {
        assert !(Contains(acc[i].skill, t) && Contains(acc[i].skill, l));
      }
    }
  }

  lemma {:induction false} LearnLoopGrows(acc: seq<MatchRecord>, t: string, learn: seq<string>, dir: Direction)
    ensures var r := LearnLoop(acc, t, learn, dir);
            acc <= r && |r| <= |acc| + |learn|
    decreases |learn|
  {
    if learn != [] {
      PairStepShape(acc, t, learn[0], dir);
      LearnLoopGrows(PairStep(acc, t, learn[0], dir), t, learn[1..], dir);
    }
  }

  lemma {:induction false} LearnLoopSound(acc: seq<MatchRecord>, t: string, learn: seq<string>, dir: Direction,
                                          T: seq<string>, L: seq<string>)
    requires t in T && forall l :: l in learn ==> l in L
    requires AllFromPairs(acc, T, L, dir) && DistinctSkills(acc)
    ensures AllFromPairs(LearnLoop(acc, t, learn, dir), T, L, dir)
    ensures DistinctSkills(LearnLoop(acc, t, learn, dir))
    decreases |learn|
  {
    if learn != [] {
      PairStepSound(acc, t, learn[0], dir, T, L);
      LearnLoopSound(PairStep(acc, t, learn[0], dir), t, learn[1..], dir, T, L);
    }
  }

  lemma {:induction false} LearnLoopCovers(acc: seq<MatchRecord>, t: string, learn: seq<string>, dir: Direction)
    ensures forall l :: l in learn && RelatedPair(t, l) ==> Covered(LearnLoop(acc, t, learn, dir), t, l)
    decreases |learn|
  {
    if learn != [] {
      var next := PairStep(acc, t, learn[0], dir);
      PairStepShape(acc, t, learn[0], dir);
      LearnLoopCovers(next, t, learn[1..], dir);
      LearnLoopGrows(next, t, learn[1..], dir);
      if RelatedPair(t, learn[0]) {
        CoveredExtends(next, LearnLoop(acc, t, learn, dir), t, learn[0]);
      }
    }
  }

  lemma {:induction false} TeachLoopGrows(acc: seq<MatchRecord>, teach: seq<string>, learn: seq<string>, dir: Direction)
    ensures var r := TeachLoop(acc, teach, learn, dir);
            acc <= r && |r| <= |acc| + |teach| * |learn|
    decreases |teach|
  {
    if teach != [] {
      var next := LearnLoop(acc, teach[0], learn, dir);
      LearnLoopGrows(acc, teach[0], learn, dir);
      TeachLoopGrows(next, teach[1..], learn, dir);
      var r := TeachLoop(acc, teach, learn, dir);
      var n, m := |teach|, |learn|;
      assert |teach[1..]| == n - 1;
      assert |r| <= |next| + (n - 1) * m;
      MulStep(n, m);
    }
  }

  lemma {:induction false} TeachLoopSound(acc: seq<MatchRecord>, teach: seq<string>, learn: seq<string>,
                                          dir: Direction, T: seq<string>)
    requires forall t :: t in teach ==> t in T
    requires AllFromPairs(acc, T, learn, dir) && DistinctSkills(acc)
    ensures AllFromPairs(TeachLoop(acc, teach, learn, dir), T, learn, dir)
    ensures DistinctSkills(TeachLoop(acc, teach, learn, dir))
    decreases |teach|
  {
    if teach != [] {
      LearnLoopSound(acc, teach[0], learn, dir, T, learn);
      TeachLoopSound(LearnLoop(acc, teach[0], learn, dir), teach[1..], learn, dir, T);
    }
  }

  lemma {:induction false} TeachLoopCovers(acc: seq<MatchRecord>, teach: seq<string>, learn: seq<string>, dir: Direction)
    ensures forall t, l :: t in teach && l in learn && RelatedPair(t, l) ==> Covered(TeachLoop(acc, teach, learn, dir), t, l)
    decreases |teach|
  {
    if teach != [] {
      var next := LearnLoop(acc, teach[0], learn, dir);
      LearnLoopCovers(acc, teach[0], learn, dir);
      TeachLoopCovers(next, teach[1..], learn, dir);
      TeachLoopGrows(next, teach[1..], learn, dir);
      var r := TeachLoop(acc, teach, learn, dir);
      forall t, l | t in teach && l in learn && RelatedPair(t, l) ensures Covered(r, t, l) {
        if t == teach[0] {
          CoveredExtends(next, r, t, l);
        } else {
          assert t in teach[1..];
        }
      }
    }
  }

  lemma MulStep(n: nat, m: nat)
    requires n > 0
    ensures n * m == m + (n - 1) * m
  {
  }

  /** With nothing on one side there is nothing to relate. */
  lemma {:induction false} FindRelatedEmptyLearn(teach: seq<string>, dir: Direction)
    ensures FindRelated(teach, [], dir) == []
  {
    TeachLoopNoLearn([], teach, dir);
  }

  lemma FindRelatedEmptyTeach(learn: seq<string>, dir: Direction)
    ensures FindRelated([], learn, dir) == []
  {
  }

  lemma {:induction false} TeachLoopNoLearn(acc: seq<MatchRecord>, teach: seq<string>, dir: Direction)
    ensures TeachLoop(acc, teach, [], dir) == acc
    decreases |teach|
  {
    if teach != [] {
      TeachLoopNoLearn(acc, teach[1..], dir);
    }
  }

  /** Filtering an empty list by membership in another leaves nothing, and so
      does filtering any list by membership in the empty list. */
  lemma ExactForEmpty(teach: seq<string>, dir: Direction)
    ensures ExactFor(teach, [], dir) == [] && ExactFor([], teach, dir) == []
  {
  }
}
