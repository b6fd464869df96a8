/** The admin places list filter (src/components/admin/places/PlacesTable.tsx):
    a name search plus a category selector whose "all" entry disables it. */
module PlacesTable {
  import opened Types
  import Strings
  import TextSearch
  import Filtering

  /** The category selector's entries after "all", as value and label. */
  const CategoryOptions: seq<(string, string)> := [
    ("cafe", "Cafe"), ("restaurant", "Restaurant"), ("bar", "Bar"), ("attraction", "Attraction"),
    ("park", "Park"), ("venue", "Venue"), ("trail", "Trail")
  ]

  /** The selector offers exactly the place categories. */
  lemma CategoryOptionsCoverCategories()
    ensures forall c :: c in PlaceCategories <==> exists k :: 0 <= k < |CategoryOptions| && CategoryOptions[k].0 == c
  {
    assert CategoryOptions[0].0 == "cafe" && CategoryOptions[1].0 == "restaurant" && CategoryOptions[2].0 == "bar";
    assert CategoryOptions[3].0 == "attraction" && CategoryOptions[4].0 == "park";
    assert CategoryOptions[5].0 == "venue" && CategoryOptions[6].0 == "trail";
  }

  /** Each entry is labelled by its value with the first letter upper-cased. */
  lemma CategoryOptionLabels(k: nat)
    requires k < |CategoryOptions|
    ensures CategoryOptions[k].1 == Strings.Capitalize(CategoryOptions[k].0)
  {
    var (v, l) := CategoryOptions[k];
    assert l == [Strings.UpperChar(v[0])] + v[1..];
  }

  /** Whether the row is listed for the given search text and category choice. */
  predicate Keeps(search: string, category: string, p: Place)
  {
    TextSearch.Matches(p.name, search) && (category == "all" || p.category == category)
  }

  function KeepsFn(search: string, category: string): Place -> bool
  {
    p => Keeps(search, category, p)
  }

  /** The rows shown: the listed ones, in their original order. */
  function Filtered(places: seq<Place>, search: string, category: string): (r: seq<Place>)
    ensures Filtering.IsSubsequence(r, places)
    ensures forall p :: p in r <==> p in places && Keeps(search, category, p)
    ensures forall p :: multiset(r)[p] == if Keeps(search, category, p) then multiset(places)[p] else 0
  {
    Filtering.FilterIsSubsequence(places, KeepsFn(search, category));
    Filtering.FilterMembership(places, KeepsFn(search, category));
    Filtering.FilterCount(places, KeepsFn(search, category));
    Filtering.Filter(places, KeepsFn(search, category))
  }

  /** With no search text and "all" categories, every place is listed. */
  lemma NoFilterKeepsAll(places: seq<Place>)
    ensures Filtered(places, "", "all") == places
  {
    forall k | 0 <= k < |places|
      ensures Keeps("", "all", places[k])
    {
      TextSearch.EmptyMatches(places[k].name);
    }
    Filtering.FilterKeepsAll(places, KeepsFn("", "all"));
  }

  /** A chosen category lists only places of that category. */
  lemma CategoryRespected(places: seq<Place>, search: string, category: string, k: nat)
    requires category != "all"
    requires k < |Filtered(places, search, category)|
    ensures Filtered(places, search, category)[k].category == category
  {
  }

  /** The search ignores the case of the search text. */
  lemma SearchIgnoresCase(places: seq<Place>, s: string, t: string, category: string)
    requires Strings.Lower(s) == Strings.Lower(t)
    ensures Filtered(places, s, category) == Filtered(places, t, category)
  {
    Filtering.FilterAgree(places, KeepsFn(s, category), KeepsFn(t, category));
  }

  /** Typing more characters never lists more places. */
  lemma LongerSearchNarrows(places: seq<Place>, s: string, t: string, category: string)
    ensures Filtering.IsSubsequence(Filtered(places, s + t, category), Filtered(places, s, category))
  {
    forall k | 0 <= k < |places|
      ensures Keeps(s + t, category, places[k]) ==> Keeps(s, category, places[k])
    {
      TextSearch.LongerSearchMatchesLess(places[k].name, s, t);
    }
    Filtering.FilterStricter(places, KeepsFn(s + t, category), KeepsFn(s, category));
  }
}
