/** The admin trails list (src/components/admin/trails/TrailsTable.tsx): a name
    search, a difficulty selector whose "all" entry disables it, and the
    badge variant each difficulty is drawn with. */
module TrailsTable {
  import opened Wrappers
  import opened Types
  import Strings
  import TextSearch
  import Filtering

  /** The difficulty selector's entries after "all", as value and label. */
  const DifficultyOptions: seq<(string, string)> := [("easy", "Easy"), ("moderate", "Moderate"), ("hard", "Hard")]

  /** The badge variant table. */
  const DifficultyVariants: map<string, string> :=
    map["easy" := "secondary", "moderate" := "default", "hard" := "destructive"]

  /** The badge variant for a trail's difficulty; a difficulty outside the
      table has none and the badge falls back to its default look. */
  function BadgeVariant(difficulty: string): (v: Option<string>)
    ensures v.Some? <==> difficulty in Difficulties
    ensures difficulty == "easy" ==> v == Some("secondary")
    ensures difficulty == "moderate" ==> v == Some("default")
    ensures difficulty == "hard" ==> v == Some("destructive")
  {
    if difficulty in DifficultyVariants then Some(DifficultyVariants[difficulty]) else None
  }

  /** The selector offers exactly the difficulties, each labelled by its capitalised value. */
  lemma DifficultyOptionsCoverDifficulties()
    ensures forall d :: d in Difficulties <==> exists k :: 0 <= k < |DifficultyOptions| && DifficultyOptions[k].0 == d
    ensures forall k :: 0 <= k < |DifficultyOptions| ==> DifficultyOptions[k].1 == Strings.Capitalize(DifficultyOptions[k].0)
  {
    assert DifficultyOptions[0].0 == "easy" && DifficultyOptions[1].0 == "moderate" && DifficultyOptions[2].0 == "hard";
    assert "Easy" == [Strings.UpperChar('e')] + "asy";
    assert "Moderate" == [Strings.UpperChar('m')] + "oderate";
    assert "Hard" == [Strings.UpperChar('h')] + "ard";
  }

  /** Whether the row is listed for the given search text and difficulty choice. */
  predicate Keeps(search: string, difficulty: string, t: Trail)
  {
    TextSearch.Matches(t.name, search) && (difficulty == "all" || t.difficulty == difficulty)
  }

  function KeepsFn(search: string, difficulty: string): Trail -> bool
  {
    t => Keeps(search, difficulty, t)
  }

  /** The rows shown: the listed ones, in their original order. */
  function Filtered(trails: seq<Trail>, search: string, difficulty: string): (r: seq<Trail>)
    ensures Filtering.IsSubsequence(r, trails)
    ensures forall t :: t in r <==> t in trails && Keeps(search, difficulty, t)
    ensures forall t :: multiset(r)[t] == if Keeps(search, difficulty, t) then multiset(trails)[t] else 0
  {
    Filtering.FilterIsSubsequence(trails, KeepsFn(search, difficulty));
    Filtering.FilterMembership(trails, KeepsFn(search, difficulty));
    Filtering.FilterCount(trails, KeepsFn(search, difficulty));
    Filtering.Filter(trails, KeepsFn(search, difficulty))
  }

  /** With no search text and "all" difficulties, every trail is listed. */
  lemma NoFilterKeepsAll(trails: seq<Trail>)
    ensures Filtered(trails, "", "all") == trails
  {
    forall k | 0 <= k < |trails|
      ensures Keeps("", "all", trails[k])
    {
      TextSearch.EmptyMatches(trails[k].name);
    }
    Filtering.FilterKeepsAll(trails, KeepsFn("", "all"));
  }

  /** A chosen difficulty lists only trails of that difficulty. */
  lemma DifficultyRespected(trails: seq<Trail>, search: string, difficulty: string, k: nat)
    requires difficulty != "all"
    requires k < |Filtered(trails, search, difficulty)|
    ensures Filtered(trails, search, difficulty)[k].difficulty == difficulty
  {
  }

  /** The search ignores the case of the search text. */
  lemma SearchIgnoresCase(trails: seq<Trail>, s: string, t: string, difficulty: string)
    requires Strings.Lower(s) == Strings.Lower(t)
    ensures Filtered(trails, s, difficulty) == Filtered(trails, t, difficulty)
  {
    Filtering.FilterAgree(trails, KeepsFn(s, difficulty), KeepsFn(t, difficulty));
  }

  /** Typing more characters never lists more trails. */
  lemma LongerSearchNarrows(trails: seq<Trail>, s: string, t: string, difficulty: string)
    ensures Filtering.IsSubsequence(Filtered(trails, s + t, difficulty), Filtered(trails, s, difficulty))
  {
    forall k | 0 <= k < |trails|
      ensures Keeps(s + t, difficulty, trails[k]) ==> Keeps(s, difficulty, trails[k])
    {
      TextSearch.LongerSearchMatchesLess(trails[k].name, s, t);
    }
    Filtering.FilterStricter(trails, KeepsFn(s + t, difficulty), KeepsFn(s, difficulty));
  }
}
