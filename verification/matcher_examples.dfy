/** Worked examples of the matcher (src/utils/aiMatcher.js:2-94), each
    stated on concrete profiles. */
module MatcherExamples {
  import opened Wrappers
  import opened Records
  import opened Matching
  import opened AiMatcher
  import Scoring
  import Explain
  import Taxonomy
  import Strings

  /** A profile with the given id and skill lists and nothing else of note. */
  function Person(id: string, teach: seq<string>, learn: seq<string>): Profile {
    Profile(id, id, id + "@example.com", "secret", None, None, Some(teach), Some(learn), Member, "")
  }

  /** Each user teaches what the other wants to learn: two exact matches,
      nothing related, score 50 + 20 + 1 = 71, and no further suggestions. */
  lemma PythonGuitarExample()
    ensures var r := MatchUsers(Person("u", ["Python"], ["Guitar"]), Person("o", ["Guitar"], ["Python"]));
            && r.exactMatches == [MatchRecord("Python", YouTeach, Exact), MatchRecord("Guitar", TheyTeach, Exact)]
            && r.relatedMatches == []
            && r.compatibilityScore == 71
            && r.aiExplanation == Explain.ExactSentence(2) + " " + Explain.TierSentence(Scoring.High)
            && r.aiRecommendations == [Explain.ReachOut]
  {
    var u := Person("u", ["Python"], ["Guitar"]);
    var o := Person("o", ["Guitar"], ["Python"]);
    ExampleLists(u, o);
    ExampleExact();
    ExampleRelated();
    ExampleScore();
    ExampleRecommendations(u, o);
  }

  lemma ExampleLists(u: Profile, o: Profile)
    requires u == Person("u", ["Python"], ["Guitar"]) && o == Person("o", ["Guitar"], ["Python"])
    ensures u.Teach() == ["Python"] && u.Learn() == ["Guitar"] && o.Teach() == ["Guitar"] && o.Learn() == ["Python"]
  {
  }

  lemma ExampleExact()
    ensures ExactMatches(["Python"], ["Guitar"], ["Guitar"], ["Python"])
            == [MatchRecord("Python", YouTeach, Exact), MatchRecord("Guitar", TheyTeach, Exact)]
  {
    assert ExactFor(["Python"], ["Python"], YouTeach) == [MatchRecord("Python", YouTeach, Exact)];
    assert ExactFor(["Guitar"], ["Guitar"], TheyTeach) == [MatchRecord("Guitar", TheyTeach, Exact)];
  }

  lemma ExampleRelated()
    ensures FindRelated(["Python"], ["Python"], YouTeach) == []
    ensures FindRelated(["Guitar"], ["Guitar"], TheyTeach) == []
  {
  }

  lemma ExampleScore()
    ensures Scoring.CompatibilityScore(2, 0, 1, 1, 1, 1) == 71
  {
    assert Scoring.RawScore(2, 0, 1, 1, 1, 1) == 71.0;
  }

  lemma ExampleRecommendations(u: Profile, o: Profile)
    requires u == Person("u", ["Python"], ["Guitar"]) && o == Person("o", ["Guitar"], ["Python"])
    ensures Explain.Recommendations(u, o, 2, 0) == [Explain.ReachOut]
  {
    assert Explain.Learnable(u, o) == [];
    assert Explain.Teachable(u, o) == [];
  }

  lemma LowerJavaReact()
    ensures Strings.Lower("Java") == "java" && Strings.Lower("React") == "react"
  {
    assert Strings.Lower("Java")[0] == 'j';
    assert Strings.Lower("React")[0] == 'r';
  }

  lemma JavaReactProgramming()
    ensures Taxonomy.FirstShared("java", "react") == Some(Taxonomy.Programming)
  {
    Strings.ContainsSelf("java");
    Strings.ContainsSelf("react");
    assert Taxonomy.Keywords(Taxonomy.Programming)[2] == "java";
    assert Taxonomy.Keywords(Taxonomy.Programming)[3] == "react";
    assert Taxonomy.Shared("java", "react", Taxonomy.Programming);
  }

  lemma JavaReactPair(dir: Direction)
    ensures FindRelated(["Java"], ["React"], dir)
            == [MatchRecord(Arrow("Java", "React"), dir, Related(Taxonomy.Programming))]
  {
    LowerJavaReact();
    JavaReactProgramming();
    TryCategoriesFirst([], "Java", "React", "java", "react", Taxonomy.Categories, dir);
  }

  /** The duplicate check does not reach across the two directions: when both
      profiles teach Java and learn React, the pair is reported once for each. */
  lemma SamePairBothDirections()
    ensures var r := MatchUsers(Person("u", ["Java"], ["React"]), Person("o", ["Java"], ["React"]));
            && r.exactMatches == []
            && r.relatedMatches == [MatchRecord(Arrow("Java", "React"), YouTeach, Related(Taxonomy.Programming)),
                                    MatchRecord(Arrow("Java", "React"), TheyTeach, Related(Taxonomy.Programming))]
  {
    var u := Person("u", ["Java"], ["React"]);
    var o := Person("o", ["Java"], ["React"]);
    JavaReactBothExact(u, o);
    JavaReactBothRelated(u, o);
  }

  lemma JavaReactBothExact(u: Profile, o: Profile)
    requires u == Person("u", ["Java"], ["React"]) && o == Person("o", ["Java"], ["React"])
    ensures ExactMatches(u.Teach(), u.Learn(), o.Teach(), o.Learn()) == []
  {
    assert u.Teach() == ["Java"] && u.Learn() == ["React"] && o.Teach() == ["Java"] && o.Learn() == ["React"];
    assert ExactFor(["Java"], ["React"], YouTeach) == [];
    assert ExactFor(["Java"], ["React"], TheyTeach) == [];
  }

  lemma JavaReactBothRelated(u: Profile, o: Profile)
    requires u == Person("u", ["Java"], ["React"]) && o == Person("o", ["Java"], ["React"])
    ensures RelatedMatches(u, o)
            == [MatchRecord(Arrow("Java", "React"), YouTeach, Related(Taxonomy.Programming)),
                MatchRecord(Arrow("Java", "React"), TheyTeach, Related(Taxonomy.Programming))]
  {
    assert u.Teach() == ["Java"] && u.Learn() == ["React"] && o.Teach() == ["Java"] && o.Learn() == ["React"];
    JavaReactPair(YouTeach);
    JavaReactPair(TheyTeach);
  }

  /** No programming keyword occurs in "figma". */
  lemma FigmaNotProgramming()
    ensures !Taxonomy.InCategory("figma", Taxonomy.Programming)
  {
    var ks := Taxonomy.Keywords(Taxonomy.Programming);
    forall i | 0 <= i < |ks| ensures !Strings.Contains("figma", ks[i]) {
      forall j | 0 <= j <= |"figma"| - |ks[i]| ensures !Strings.InfixAt("figma", ks[i], j) {
        assert "figma"[j] != ks[i][0];
      }
    }
  }
  /** "guitar" contains the design keyword "ui", so a Guitar/Figma pair is
      tagged design even though Guitar is listed under music. */
  lemma GuitarFigmaDesign()
    ensures Taxonomy.FirstShared("guitar", "figma") == Some(Taxonomy.Design)
  {
    FigmaNotProgramming();
    Taxonomy.GuitarIsDesignAndMusic();
    Strings.ContainsSelf("figma");
    assert Taxonomy.Keywords(Taxonomy.Design)[2] == "figma";
    assert Taxonomy.Shared("guitar", "figma", Taxonomy.Design);
    assert Taxonomy.Categories[0] == Taxonomy.Programming && Taxonomy.Categories[1] == Taxonomy.Design;
  }

  lemma LowerGuitarFigma()
    ensures Strings.Lower("Guitar") == "guitar" && Strings.Lower("Figma") == "figma"
  {
    assert Strings.Lower("Guitar")[0] == 'g';
    assert Strings.Lower("Figma")[0] == 'f';
  }

  lemma GuitarFigmaPair(dir: Direction)
    ensures FindRelated(["Guitar"], ["Figma"], dir)
            == [MatchRecord(Arrow("Guitar", "Figma"), dir, Related(Taxonomy.Design))]
  {
    LowerGuitarFigma();
    GuitarFigmaDesign();
    TryCategoriesFirst([], "Guitar", "Figma", "guitar", "figma", Taxonomy.Categories, dir);
  }

  /** Names that differ only in case are neither an exact match (the list
      test is case-sensitive) nor a related one (equal lower-cased names are
      skipped). */
  lemma CaseOnlyDiffers()
    ensures MatchUsers(Person("u", ["Python"], []), Person("o", [], ["python"])).allMatches == []
  {
    var u := Person("u", ["Python"], []);
    var o := Person("o", [], ["python"]);
    assert u.Teach() == ["Python"] && u.Learn() == [] && o.Teach() == [] && o.Learn() == ["python"];
    assert "Python"[0] != "python"[0];
    assert ExactFor(["Python"], ["python"], YouTeach) == [];
    ExactForEmpty([], TheyTeach);
    assert Strings.Lower("Python") == Strings.Lower("python") by {
      assert Strings.Lower("Python")[0] == 'p';
    }
    assert FindRelated(["Python"], ["python"], YouTeach) == [];
    FindRelatedEmptyTeach([], TheyTeach);
  }

  lemma LowerJavaScript()
    ensures Strings.Lower("JavaScript") == "javascript"
  {
    assert Strings.Lower("JavaScript")[0] == 'j';
    assert Strings.Lower("JavaScript")[4] == 's';
  }

  lemma JavaScriptReactProgramming()
    ensures Taxonomy.FirstShared("javascript", "react") == Some(Taxonomy.Programming)
  {
    Strings.ContainsSelf("javascript");
    Strings.ContainsSelf("react");
    assert Taxonomy.Keywords(Taxonomy.Programming)[0] == "javascript";
    assert Taxonomy.Keywords(Taxonomy.Programming)[3] == "react";
    assert Taxonomy.Shared("javascript", "react", Taxonomy.Programming);
  }

  function JavaScriptReact(): MatchRecord {
    MatchRecord(Arrow("JavaScript", "React"), YouTeach, Related(Taxonomy.Programming))
  }

  lemma FirstPairRecorded()
    ensures PairStep([], "JavaScript", "React", YouTeach) == [JavaScriptReact()]
  {
    LowerJavaScript();
    LowerJavaReact();
    JavaScriptReactProgramming();
    TryCategoriesFirst([], "JavaScript", "React", "javascript", "react", Taxonomy.Categories, YouTeach);
  }

  lemma JavaReactCovered()
    ensures Covered([JavaScriptReact()], "Java", "React")
  {
    var skill := JavaScriptReact().skill;
    assert skill == "Java" + ("Script" + " \U{2192} " + "React");
    Strings.ContainsPrefix("Java", "Script" + " \U{2192} " + "React");
    assert skill == ("JavaScript" + " \U{2192} ") + "React";
    Strings.ContainsSuffix("JavaScript" + " \U{2192} ", "React");
    assert [JavaScriptReact()][0].skill == skill;
  }

  lemma SecondPairDropped()
    ensures PairStep([JavaScriptReact()], "Java", "React", YouTeach) == [JavaScriptReact()]
  {
    LowerJavaReact();
    JavaReactProgramming();
    JavaReactCovered();
    TryCategoriesFirst([JavaScriptReact()], "Java", "React", "java", "react", Taxonomy.Categories, YouTeach);
  }

  /** The duplicate check is a substring test on the recorded text: once
      "JavaScript \u2192 React" is recorded, the later pair Java/React counts as
      already covered and is dropped. */
  lemma SubstringSuppressesLaterPair()
    ensures FindRelated(["JavaScript", "Java"], ["React"], YouTeach) == [JavaScriptReact()]
  {
    var one := [JavaScriptReact()];
    assert LearnLoop([], "JavaScript", ["React"], YouTeach) == one by {
      FirstPairRecorded();
      assert ["React"][1..] == [];
    }
    assert LearnLoop(one, "Java", ["React"], YouTeach) == one by {
      SecondPairDropped();
      assert ["React"][1..] == [];
    }
    assert TeachLoop([], ["JavaScript", "Java"], ["React"], YouTeach) == one by {
      assert ["JavaScript", "Java"][1..] == ["Java"];
      assert ["Java"][1..] == [];
      assert TeachLoop(one, ["Java"], ["React"], YouTeach) == TeachLoop(one, [], ["React"], YouTeach);
    }
  }
}
