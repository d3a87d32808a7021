/**
 * The skills section (src/components/Skills.tsx): skills grouped into cards by
 * category, each card coloured by a lookup with a fallback, and a summary
 * with the number of skills and their rounded average level.
 */
module Skills {

  datatype Skill = Skill(name: string, level: int, category: string)

  /** A card: the category name and the colour of its gradient. */
  datatype Category = Category(name: string, color: string)

  /** The cards, in display order. */
  const SkillCategories: seq<Category> := [
    Category("Frontend", "blue"),
    Category("Programming", "teal"),
    Category("AI/ML", "purple"),
    Category("Tools", "orange"),
    Category("Integration", "green")
  ]

  /** The skills of src/data/portfolio.ts:21-28. */
  const PortfolioSkills: seq<Skill> := [
    Skill("Web Designing", 85, "Frontend"),
    Skill("JavaScript", 80, "Programming"),
    Skill("HTML/CSS", 90, "Frontend"),
    Skill("Chatbot Design (Dialogflow)", 75, "AI/ML"),
    Skill("VS Code", 95, "Tools"),
    Skill("Kommunicate Integration", 70, "Integration")
  ]

  /** `a` is `b` with some elements left out, the rest in their order. */
  predicate Subsequence<T(==)>(a: seq<T>, b: seq<T>)
    decreases |b|
  {
    if a == [] then true
    else if b == [] then false
    else (a[0] == b[0] && Subsequence(a[1..], b[1..])) || Subsequence(a, b[1..])
  }

  /** The skills of one category, in their original order. */
  function ByCategory(skills: seq<Skill>, category: string): (r: seq<Skill>)
    ensures |r| <= |skills|
    ensures forall k :: 0 <= k < |r| ==> r[k].category == category
    ensures Subsequence(r, skills)
    ensures forall s :: multiset(r)[s] == if s.category == category then multiset(skills)[s] else 0
  {
    if skills == [] then []
    else
      var rest := ByCategory(skills[1..], category);
      assert skills == [skills[0]] + skills[1..];
      if skills[0].category == category then
        var r := [skills[0]] + rest;
        assert r[1..] == rest;
        r
      else rest
  }

  /** The number of skills the cards of these categories list together. */
  function CardTotal(skills: seq<Skill>, names: seq<string>): nat {
    if names == [] then 0 else |ByCategory(skills, names[0])| + CardTotal(skills, names[1..])
  }

  /** How often a name occurs in a list of names. */
  function Occurrences(names: seq<string>, c: string): nat {
    if names == [] then 0 else (if names[0] == c then 1 else 0) + Occurrences(names[1..], c)
  }

  predicate Distinct(names: seq<string>) {
    forall i, j :: 0 <= i < j < |names| ==> names[i] != names[j]
  }

  lemma {:induction false} OccursOnce(names: seq<string>, c: string)
    requires Distinct(names) && c in names
    ensures Occurrences(names, c) == 1
  {
    if names[0] == c {
      NotOccurring(names[1..], c);
    } else {
      OccursOnce(names[1..], c);
    }
  }

  lemma {:induction false} NotOccurring(names: seq<string>, c: string)
    requires c !in names
    ensures Occurrences(names, c) == 0
  {
    if names != [] {
      NotOccurring(names[1..], c);
    }
  }

  /** Adding one skill in front adds one to each card of its category. */
  lemma {:induction false} CardTotalCons(s: Skill, skills: seq<Skill>, names: seq<string>)
    ensures CardTotal([s] + skills, names) == Occurrences(names, s.category) + CardTotal(skills, names)
  {
    if names != [] {
      assert ([s] + skills)[1..] == skills;
      CardTotalCons(s, skills, names[1..]);
    }
  }

  /**
   * When every skill's category is one of the distinct card names, the cards
   * partition the skills: together they list each skill exactly once.
   */
  lemma {:induction false} CardsPartitionSkills(skills: seq<Skill>, names: seq<string>)
    requires Distinct(names)
    requires forall k :: 0 <= k < |skills| ==> skills[k].category in names
    ensures CardTotal(skills, names) == |skills|
  {
    if skills == [] {
      NoSkillsNoCards(names);
    } else {
      assert skills == [skills[0]] + skills[1..];
      CardTotalCons(skills[0], skills[1..], names);
      OccursOnce(names, skills[0].category);
      CardsPartitionSkills(skills[1..], names);
    }
  }

  lemma {:induction false} NoSkillsNoCards(names: seq<string>)
    ensures CardTotal([], names) == 0
  {
    if names != [] {
      NoSkillsNoCards(names[1..]);
    }
  }

  function Names(cats: seq<Category>): (r: seq<string>)
    ensures |r| == |cats| && forall k :: 0 <= k < |cats| ==> r[k] == cats[k].name
  {
    if cats == [] then [] else [cats[0].name] + Names(cats[1..])
  }

  /** The five card names, all different. */
  lemma CardNamesDistinct()
    ensures Names(SkillCategories) == ["Frontend", "Programming", "AI/ML", "Tools", "Integration"]
    ensures Distinct(Names(SkillCategories))
  {
    var names := Names(SkillCategories);
    assert names == ["Frontend", "Programming", "AI/ML", "Tools", "Integration"];
    assert forall i, j :: 0 <= i < j < 5 ==> |names[i]| != |names[j]| || names[i][0] != names[j][0];
  }

  /** For the portfolio's data the five cards list the six skills, as many as "Total Skills". */
  lemma PortfolioCardsPartition()
    ensures CardTotal(PortfolioSkills, Names(SkillCategories)) == |PortfolioSkills| == 6
  {
    var names := Names(SkillCategories);
    CardNamesDistinct();
    assert forall k :: 0 <= k < |PortfolioSkills| ==> PortfolioSkills[k].category in names;
    CardsPartitionSkills(PortfolioSkills, names);
  }

  /** The categories that get a card: those with at least one skill. */
  function Cards(skills: seq<Skill>, cats: seq<Category>): (r: seq<Category>)
    ensures Subsequence(r, cats)
    ensures forall c :: c in r ==> |ByCategory(skills, c.name)| > 0
    ensures forall c :: c in cats && |ByCategory(skills, c.name)| > 0 ==> c in r
  {
    if cats == [] then []
    else
      var rest := Cards(skills, cats[1..]);
      assert cats == [cats[0]] + cats[1..];
      if |ByCategory(skills, cats[0].name)| == 0 then rest
      else
        var r := [cats[0]] + rest;
        assert r[1..] == rest;
        r
  }

  /** The gradient classes of each card colour. */
  const ColorMap: map<string, string> := map[
    "blue" := "from-blue-500 to-blue-600",
    "teal" := "from-teal-500 to-teal-600",
    "purple" := "from-purple-500 to-purple-600",
    "orange" := "from-orange-500 to-orange-600",
    "green" := "from-green-500 to-green-600"
  ]

  /** The classes of a colour; an unknown colour gets the blue ones. */
  function ColorClasses(color: string): (r: string)
    ensures r in ColorMap.Values
    ensures color in ColorMap ==> r == ColorMap[color]
    ensures color !in ColorMap ==> r == ColorMap["blue"]
  {
    if color in ColorMap && ColorMap[color] != "" then ColorMap[color] else ColorMap["blue"]
  }

  /** Each of the five colours gets its own classes. */
  lemma ColorsAreDistinct(c: string, d: string)
    requires c in ColorMap && d in ColorMap && c != d
    ensures ColorClasses(c) != ColorClasses(d)
  {
  }

  /** Every card's colour is known, so the fallback is never taken for the cards. */
  lemma CardColorsKnown()
    ensures forall k :: 0 <= k < |SkillCategories| ==> SkillCategories[k].color in ColorMap
  {
  }

  function SumLevels(skills: seq<Skill>): int {
    if skills == [] then 0 else skills[0].level + SumLevels(skills[1..])
  }

  /**
   * The mean level rounded to the nearest integer, halves rounded up:
   * the result `r` satisfies `r - 1/2 <= sum / n < r + 1/2`.
   */
  function AverageProficiency(skills: seq<Skill>): (r: int)
    requires |skills| > 0
    ensures 2 * |skills| * r - |skills| <= 2 * SumLevels(skills) < 2 * |skills| * r + |skills|
  {
    var n := |skills|;
    var r := (2 * SumLevels(skills) + n) / (2 * n);
    assert 2 * n * r <= 2 * SumLevels(skills) + n < 2 * n * r + 2 * n;
    r
  }

  /** The sum of levels that all lie between `lo` and `hi`. */
  lemma {:induction false} SumLevelsBounds(skills: seq<Skill>, lo: int, hi: int)
    requires forall k :: 0 <= k < |skills| ==> lo <= skills[k].level <= hi
    ensures |skills| * lo <= SumLevels(skills) <= |skills| * hi
  {
    if skills != [] {
      SumLevelsBounds(skills[1..], lo, hi);
      assert |skills| * lo == lo + (|skills| - 1) * lo;
      assert |skills| * hi == hi + (|skills| - 1) * hi;
    }
  }

  /** A non-positive product with a positive factor has a non-positive other factor. */
  lemma PositiveFactor(n: int, x: int)
    requires n > 0 && n * x <= 0
    ensures x <= 0
  {
  }

  /** The average lies between the lowest and the highest level. */
  lemma {:induction false} AverageWithinLevels(skills: seq<Skill>, lo: int, hi: int)
    requires |skills| > 0
    requires forall k :: 0 <= k < |skills| ==> lo <= skills[k].level <= hi
    ensures lo <= AverageProficiency(skills) <= hi
  {
    var n, r, sum := |skills|, AverageProficiency(skills), SumLevels(skills);
    SumLevelsBounds(skills, lo, hi);
    // 2nr - n <= 2 sum <= 2n hi, so n (2r - 2hi - 1) <= 0
    assert n * (2 * r - 2 * hi - 1) == 2 * n * r - n - 2 * (n * hi);
    PositiveFactor(n, 2 * r - 2 * hi - 1);
    // 2n lo <= 2 sum < 2nr + n, so n (2lo - 2r - 1) < 0
    assert n * (2 * lo - 2 * r - 1) == 2 * (n * lo) - (2 * n * r + n);
    PositiveFactor(n, 2 * lo - 2 * r - 1);
  }

  /** The portfolio's levels sum to 495 over six skills: 82.5, shown as 83. */
  lemma PortfolioAverage()
    ensures SumLevels(PortfolioSkills) == 495
    ensures AverageProficiency(PortfolioSkills) == 83
  {
  }
}
