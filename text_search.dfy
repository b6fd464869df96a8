/** The case-insensitive substring test every admin table filters with:
    `field.toLowerCase().includes(search.toLowerCase())`. */
module TextSearch {
  import opened Strings

  /** The field contains the search text, ignoring (ASCII) case. */
  predicate Matches(field: string, search: string)
  {
    Includes(Lower(field), Lower(search))
  }

  /** An empty search matches every field. */
  lemma EmptyMatches(field: string)
    ensures Matches(field, "")
  {
    IncludesEmpty(Lower(field));
  }

  /** The test is the reference "occurs somewhere" property on lower-cased text. */
  lemma MatchesIffOccurs(field: string, search: string)
    ensures Matches(field, search) <==> exists i :: OccursAt(Lower(field), Lower(search), i)
  {
    IncludesIffOccurs(Lower(field), Lower(search));
  }

  /** Changing the case of the search text does not change the outcome. */
  lemma CaseOfSearchIrrelevant(field: string, s: string, t: string)
    requires Lower(s) == Lower(t)
    ensures Matches(field, s) == Matches(field, t)
  {
  }

  /** A field that matches a longer search matches every prefix of it. */
  lemma LongerSearchMatchesLess(field: string, s: string, t: string)
    ensures Matches(field, s + t) ==> Matches(field, s)
  {
    if Matches(field, s + t) {
      LowerConcat(s, t);
      IncludesPrefixOfNeedle(Lower(field), Lower(s), Lower(t));
    }
  }
}
