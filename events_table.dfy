/** The admin events list (src/components/admin/events/EventsTable.tsx): a title
    search and a category selector built from a fixed list of categories. */
module EventsTable {
  import opened Types
  import Strings
  import TextSearch
  import Filtering

  /** The category selector's entries after "all". */
  const CategoryValues: seq<string> :=
    ["music", "comedy", "art", "food", "market", "community", "quiz", "craft", "kids", "cultural"]

  /** The selector offers exactly the event categories, each once. */
  lemma CategoryValuesAreEventCategories()
    ensures forall c :: c in EventCategories <==> c in CategoryValues
    ensures forall i, j :: 0 <= i < j < |CategoryValues| ==> CategoryValues[i] != CategoryValues[j]
  {
  }

  /** Each entry is labelled by its value with the first letter upper-cased
      (`c.charAt(0).toUpperCase() + c.slice(1)`), and no two entries share a label. */
  lemma OptionLabels()
    ensures forall k :: 0 <= k < |CategoryValues| ==>
      var v, l := CategoryValues[k], Strings.Capitalize(CategoryValues[k]);
      && |l| == |v| > 0 && Strings.IsUpper(l[0]) && l[0] == Strings.UpperChar(v[0]) && l[1..] == v[1..]
    ensures forall i, j :: 0 <= i < j < |CategoryValues| ==>
      Strings.Capitalize(CategoryValues[i]) != Strings.Capitalize(CategoryValues[j])
  {
    forall k | 0 <= k < |CategoryValues|
      ensures CategoryValues[k] != "" && Strings.IsLower(CategoryValues[k][0])
    {
    }
    forall i, j | 0 <= i < j < |CategoryValues|
      ensures Strings.Capitalize(CategoryValues[i]) != Strings.Capitalize(CategoryValues[j])
    {
      CategoryValuesAreEventCategories();
      Strings.CapitalizeInjective(CategoryValues[i], CategoryValues[j]);
    }
  }

  /** Whether the row is listed for the given search text and category choice. */
  predicate Keeps(search: string, category: string, e: Event)
  {
    TextSearch.Matches(e.title, search) && (category == "all" || e.category == category)
  }

  function KeepsFn(search: string, category: string): Event -> bool
  {
    e => Keeps(search, category, e)
  }

  /** The rows shown: the listed ones, in their original order. */
  function Filtered(events: seq<Event>, search: string, category: string): (r: seq<Event>)
    ensures Filtering.IsSubsequence(r, events)
    ensures forall e :: e in r <==> e in events && Keeps(search, category, e)
    ensures forall e :: multiset(r)[e] == if Keeps(search, category, e) then multiset(events)[e] else 0
  {
    Filtering.FilterIsSubsequence(events, KeepsFn(search, category));
    Filtering.FilterMembership(events, KeepsFn(search, category));
    Filtering.FilterCount(events, KeepsFn(search, category));
    Filtering.Filter(events, KeepsFn(search, category))
  }

  /** With no search text and "all" categories, every event is listed. */
  lemma NoFilterKeepsAll(events: seq<Event>)
    ensures Filtered(events, "", "all") == events
  {
    forall k | 0 <= k < |events|
      ensures Keeps("", "all", events[k])
    {
      TextSearch.EmptyMatches(events[k].title);
    }
    Filtering.FilterKeepsAll(events, KeepsFn("", "all"));
  }

  /** A chosen category lists only events of that category. */
  lemma CategoryRespected(events: seq<Event>, search: string, category: string, k: nat)
    requires category != "all"
    requires k < |Filtered(events, search, category)|
    ensures Filtered(events, search, category)[k].category == category
  {
  }

  /** The search ignores the case of the search text. */
  lemma SearchIgnoresCase(events: seq<Event>, s: string, t: string, category: string)
    requires Strings.Lower(s) == Strings.Lower(t)
    ensures Filtered(events, s, category) == Filtered(events, t, category)
  {
    Filtering.FilterAgree(events, KeepsFn(s, category), KeepsFn(t, category));
  }

  /** Typing more characters never lists more events. */
  lemma LongerSearchNarrows(events: seq<Event>, s: string, t: string, category: string)
    ensures Filtering.IsSubsequence(Filtered(events, s + t, category), Filtered(events, s, category))
  {
    forall k | 0 <= k < |events|
      ensures Keeps(s + t, category, events[k]) ==> Keeps(s, category, events[k])
    {
      TextSearch.LongerSearchMatchesLess(events[k].title, s, t);
    }
    Filtering.FilterStricter(events, KeepsFn(s + t, category), KeepsFn(s, category));
  }
}
