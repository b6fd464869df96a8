/** The admin guides list filter (src/components/admin/guides/GuidesTable.tsx):
    a title search only. */
module GuidesTable {
  import opened Types
  import Strings
  import TextSearch
  import Filtering

  /** Whether the guide is listed for the given search text. */
  predicate Keeps(search: string, g: Guide)
  {
    TextSearch.Matches(g.title, search)
  }

  function KeepsFn(search: string): Guide -> bool
  {
    g => Keeps(search, g)
  }

  /** The rows shown: the listed ones, in their original order. */
  function Filtered(guides: seq<Guide>, search: string): (r: seq<Guide>)
    ensures Filtering.IsSubsequence(r, guides)
    ensures forall g :: g in r <==> g in guides && Keeps(search, g)
    ensures forall g :: multiset(r)[g] == if Keeps(search, g) then multiset(guides)[g] else 0
  {
    Filtering.FilterIsSubsequence(guides, KeepsFn(search));
    Filtering.FilterMembership(guides, KeepsFn(search));
    Filtering.FilterCount(guides, KeepsFn(search));
    Filtering.Filter(guides, KeepsFn(search))
  }

  /** With no search text every guide is listed. */
  lemma EmptySearchKeepsAll(guides: seq<Guide>)
    ensures Filtered(guides, "") == guides
  {
    forall k | 0 <= k < |guides|
      ensures Keeps("", guides[k])
    {
      TextSearch.EmptyMatches(guides[k].title);
    }
    Filtering.FilterKeepsAll(guides, KeepsFn(""));
  }

  /** The search ignores the case of the search text. */
  lemma SearchIgnoresCase(guides: seq<Guide>, s: string, t: string)
    requires Strings.Lower(s) == Strings.Lower(t)
    ensures Filtered(guides, s) == Filtered(guides, t)
  {
    Filtering.FilterAgree(guides, KeepsFn(s), KeepsFn(t));
  }

  /** Typing more characters never lists more guides. */
  lemma LongerSearchNarrows(guides: seq<Guide>, s: string, t: string)
    ensures Filtering.IsSubsequence(Filtered(guides, s + t), Filtered(guides, s))
  {
    forall k | 0 <= k < |guides|
      ensures Keeps(s + t, guides[k]) ==> Keeps(s, guides[k])
    {
      TextSearch.LongerSearchMatchesLess(guides[k].title, s, t);
    }
    Filtering.FilterStricter(guides, KeepsFn(s + t), KeepsFn(s));
  }
}
