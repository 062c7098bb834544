/** The fixed category table of the related-skill matcher
    (src/utils/aiMatcher.js:56-64) and category membership by keyword substring. */
module Taxonomy {
  import opened Wrappers
  import opened Strings

  datatype Category = Programming | Design | Languages | Music | Business | Cooking | Fitness

  /** The categories in the order the matcher tries them. */
  const Categories: seq<Category> :=
    [Programming, Design, Languages, Music, Business, Cooking, Fitness]

  lemma CategoriesComplete(c: Category)
    ensures c in Categories
  {
    match c
    case Programming => assert Categories[0] == c;
    case Design => assert Categories[1] == c;
    case Languages => assert Categories[2] == c;
    case Music => assert Categories[3] == c;
    case Business => assert Categories[4] == c;
    case Cooking => assert Categories[5] == c;
    case Fitness => assert Categories[6] == c;
  }

  /** The `category` string stored on a related match. */
  function Name(c: Category): string {
    match c
    case Programming => "programming"
    case Design => "design"
    case Languages => "languages"
    case Music => "music"
    case Business => "business"
    case Cooking => "cooking"
    case Fitness => "fitness"
  }

  function Keywords(c: Category): seq<string> {
    match c
    case Programming => ["javascript", "python", "java", "react", "node", "html", "css", "typescript", "vue", "angular"]
    case Design => ["ui", "ux", "figma", "photoshop", "illustrator", "design", "graphic"]
    case Languages => ["english", "spanish", "french", "german", "chinese", "japanese"]
    case Music => ["guitar", "piano", "violin", "drums", "music", "singing"]
    case Business => ["marketing", "sales", "management", "entrepreneurship", "finance"]
    case Cooking => ["cooking", "baking", "culinary", "recipe"]
    case Fitness => ["yoga", "fitness", "gym", "workout", "running", "cycling"]
  }

  /** `skills.some(s => lowered.includes(s))` for the keyword list of `c`. */
  predicate InCategory(lowered: string, c: Category) {
    exists i | 0 <= i < |Keywords(c)| :: Contains(lowered, Keywords(c)[i])
  }

  /** Both lower-cased skills hit a keyword of `c`. */
  predicate Shared(teachLower: string, learnLower: string, c: Category) {
    InCategory(teachLower, c) && InCategory(learnLower, c)
  }

  /** The first category of `cats` that both skills belong to. */
  function FirstSharedIn(teachLower: string, learnLower: string, cats: seq<Category>): (r: Option<Category>)
    ensures r.Some? ==> Shared(teachLower, learnLower, r.value)
    ensures r.Some? ==> exists k :: 0 <= k < |cats| && cats[k] == r.value
                          && forall j :: 0 <= j < k ==> !Shared(teachLower, learnLower, cats[j])
    ensures r.None? <==> forall c :: c in cats ==> !Shared(teachLower, learnLower, c)
  {
    if cats == [] then None
    else if Shared(teachLower, learnLower, cats[0]) then Some(cats[0])
    else
      var r := FirstSharedIn(teachLower, learnLower, cats[1..]);
      assert cats == [cats[0]] + cats[1..];
      assert r.Some? ==> exists k :: 0 <= k < |cats| && cats[k] == r.value
                          && forall j :: 0 <= j < k ==> !Shared(teachLower, learnLower, cats[j]) by {
        if r.Some? {
          var k :| 0 <= k < |cats[1..]| && cats[1..][k] == r.value
                   && forall j :: 0 <= j < k ==> !Shared(teachLower, learnLower, cats[1..][j]);
          assert forall j :: 0 <= j < k + 1 ==> !Shared(teachLower, learnLower, cats[j]) by {
            forall j | 0 <= j < k + 1 ensures !Shared(teachLower, learnLower, cats[j]) {
              if j > 0 { assert cats[j] == cats[1..][j - 1]; }
            }
          }
        }
      }
      r
  }

  /** The first category, in declaration order, that both skills belong to. */
  function FirstShared(teachLower: string, learnLower: string): (r: Option<Category>)
    ensures r.Some? ==> Shared(teachLower, learnLower, r.value)
    ensures r.Some? ==> exists k :: 0 <= k < |Categories| && Categories[k] == r.value
                          && forall j :: 0 <= j < k ==> !Shared(teachLower, learnLower, Categories[j])
    ensures r.None? <==> forall c :: !Shared(teachLower, learnLower, c)
  {
    var r := FirstSharedIn(teachLower, learnLower, Categories);
    assert r.None? ==> forall c :: !Shared(teachLower, learnLower, c) by {
      forall c ensures c in Categories {
        CategoriesComplete(c);
      }
    }
    r
  }

  /** Keyword "ui" occurs inside "guitar", so Guitar is a design skill as
      well as a music skill. */
  lemma GuitarIsDesignAndMusic()
    ensures InCategory("guitar", Design) && InCategory("guitar", Music)
  {
    assert InfixAt("guitar", "ui", 1);
    assert Keywords(Design)[0] == "ui";
    ContainsSelf("guitar");
    assert Keywords(Music)[0] == "guitar";
  }
}
