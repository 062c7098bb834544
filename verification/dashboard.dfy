/** The discover page: the browsable list, its search and filter
    (src/pages/Dashboard.jsx:11-34), and the per-card skill matches
    (src/pages/Dashboard.jsx:36-59). */
module Dashboard {
  import opened Wrappers
  import opened Strings
  import opened Records
  import opened Matching
  import Seqs

  /** Everyone stored except the signed-in user. */
  function Browsable(allUsers: seq<Profile>, me: Profile): (r: seq<Profile>)
    ensures forall u :: u in r <==> u in allUsers && u.id != me.id
    ensures Seqs.IsSubsequence(r, allUsers)
    ensures forall u: Profile :: u.id != me.id ==> multiset(r)[u] == multiset(allUsers)[u]
  {
    WithoutUser(allUsers, me.id)
  }

  /** Some skill of the list contains `q` once lower-cased. */
  predicate SomeSkillContains(skills: seq<string>, q: string) {
    exists i :: 0 <= i < |skills| && Contains(Lower(skills[i]), q)
  }

  /** A location only takes part in the search when it is a non-empty string. */
  predicate LocationContains(location: Option<string>, q: string) {
    location.Some? && location.value != "" && Contains(Lower(location.value), q)
  }

  /** `matchesSearch`: the lower-cased term occurs in the lower-cased name,
      location, or one of the skills. */
  predicate MatchesSearch(u: Profile, term: string)
    ensures term == "" ==> MatchesSearch(u, term)
  {
    var q := Lower(term);
    ContainsEmpty(Lower(u.name));
    || Contains(Lower(u.name), q)
    || LocationContains(u.location, q)
    || SomeSkillContains(u.Teach(), q)
    || SomeSkillContains(u.Learn(), q)
  }

  /** The filter callback: `"teach"` and `"learn"` additionally ask for a
      non-empty list; `"all"` and every other value apply the search alone. */
  predicate Shown(u: Profile, term: string, filterType: string)
    ensures Shown(u, term, filterType) ==> MatchesSearch(u, term)
    ensures filterType == "teach" ==> (Shown(u, term, filterType) <==> MatchesSearch(u, term) && u.Teach() != [])
    ensures filterType == "learn" ==> (Shown(u, term, filterType) <==> MatchesSearch(u, term) && u.Learn() != [])
    ensures filterType != "teach" && filterType != "learn" ==> (Shown(u, term, filterType) <==> MatchesSearch(u, term))
  {
    if filterType == "teach" then MatchesSearch(u, term) && u.Teach() != []
    else if filterType == "learn" then MatchesSearch(u, term) && u.Learn() != []
    else MatchesSearch(u, term)
  }

  function ShownBy(term: string, filterType: string): Profile -> bool {
    u => Shown(u, term, filterType)
  }

  /** `filteredUsers`. */
  function FilteredUsers(users: seq<Profile>, term: string, filterType: string): (r: seq<Profile>)
    ensures forall u :: u in r <==> u in users && Shown(u, term, filterType)
    ensures Seqs.IsSubsequence(r, users)
    ensures forall u: Profile :: Shown(u, term, filterType) ==> multiset(r)[u] == multiset(users)[u]
  {
    Seqs.FilterKeepsOrderAndCopies(users, ShownBy(term, filterType));
    Seqs.Filter(users, ShownBy(term, filterType))
  }

  /** An empty search term lists everyone under `"all"`. */
  lemma EmptySearchShowsAll(users: seq<Profile>)
    ensures FilteredUsers(users, "", "all") == users
  {
    forall u | u in users ensures ShownBy("", "all")(u) {
      ContainsEmpty(Lower(u.name));
    }
    Seqs.FilterAll(users, ShownBy("", "all"));
  }

  /** The search ignores the case of the term. */
  lemma SearchIgnoresTermCase(u: Profile, term: string)
    ensures MatchesSearch(u, Lower(term)) == MatchesSearch(u, term)
  {
    LowerIdempotent(term);
  }

  datatype PotentialMatch = PotentialMatch(kind: string, skill: string, to: string)

  /** One record per kept skill, in order. */
  function Labelled(skills: seq<string>, kind: string, to: string): (r: seq<PotentialMatch>)
    ensures |r| == |skills|
    ensures forall i :: 0 <= i < |r| ==> r[i] == PotentialMatch(kind, skills[i], to)
  {
    if skills == [] then [] else [PotentialMatch(kind, skills[0], to)] + Labelled(skills[1..], kind, to)
  }

  /** The two labelled runs, mine first. */
  function Listing(mine: seq<string>, theirs: seq<string>, to: string): (r: seq<PotentialMatch>)
    ensures |r| == |mine| + |theirs|
    ensures forall i :: 0 <= i < |mine| ==> r[i] == PotentialMatch("I can teach", mine[i], to)
    ensures forall i :: 0 <= i < |theirs| ==> r[|mine| + i] == PotentialMatch("They can teach", theirs[i], to)
  {
    Labelled(mine, "I can teach", to) + Labelled(theirs, "They can teach", to)
  }

  /** `getPotentialMatches`: my teachable skills the other user wants to
      learn, then theirs that I want, compared case-sensitively and addressed
      to the other user. */
  function PotentialMatches(me: Profile, other: Profile): (r: seq<PotentialMatch>)
    ensures var mine := Seqs.Filter(me.Teach(), MemberOf(other.Learn()));
            var theirs := Seqs.Filter(other.Teach(), MemberOf(me.Learn()));
            && |r| == |mine| + |theirs|
            && (forall i :: 0 <= i < |mine| ==> r[i] == PotentialMatch("I can teach", mine[i], other.name))
            && (forall i :: 0 <= i < |theirs| ==>
                  r[|mine| + i] == PotentialMatch("They can teach", theirs[i], other.name))
    ensures |r| <= |me.Teach()| + |other.Teach()|
  {
    Listing(Seqs.Filter(me.Teach(), MemberOf(other.Learn())), Seqs.Filter(other.Teach(), MemberOf(me.Learn())), other.name)
  }

  /** The card lists the same skills, in the same order, as the matcher's
      exact matches for the pair, and "I can teach" exactly where the matcher
      says `you_teach`. */
  lemma CardAgreesWithMatcher(me: Profile, other: Profile)
    ensures var card := PotentialMatches(me, other);
            var exact := ExactMatches(me.Teach(), me.Learn(), other.Teach(), other.Learn());
            && |card| == |exact|
            && forall i :: 0 <= i < |card| ==>
                 card[i].skill == exact[i].skill && (card[i].kind == "I can teach" <==> exact[i].direction == YouTeach)
  {
    ListingFollows(Seqs.Filter(me.Teach(), MemberOf(other.Learn())), Seqs.Filter(other.Teach(), MemberOf(me.Learn())),
                   other.name, ExactMatches(me.Teach(), me.Learn(), other.Teach(), other.Learn()));
  }

  lemma ListingFollows(mine: seq<string>, theirs: seq<string>, to: string, exact: seq<MatchRecord>)
    requires Skills(exact) == mine + theirs
    requires forall i :: 0 <= i < |exact| ==> exact[i].direction == if i < |mine| then YouTeach else TheyTeach
    ensures var card := Listing(mine, theirs, to);
            && |card| == |exact|
            && forall i :: 0 <= i < |card| ==>
                 card[i].skill == exact[i].skill && (card[i].kind == "I can teach" <==> exact[i].direction == YouTeach)
  {
    var card := Listing(mine, theirs, to);
    forall i | 0 <= i < |card|
      ensures card[i].skill == exact[i].skill && (card[i].kind == "I can teach" <==> exact[i].direction == YouTeach)
    {
      assert exact[i].skill == Skills(exact)[i];
      if i >= |mine| {
        assert card[i] == card[|mine| + (i - |mine|)];
      }
    }
  }
}
