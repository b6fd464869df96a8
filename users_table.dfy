/** The admin users list (src/components/admin/users/UsersTable.tsx): a search
    over username and display name, and the fallbacks the rows show. */
module UsersTable {
  import opened Wrappers
  import opened Types
  import Strings
  import TextSearch
  import Filtering

  /** Whether the user is listed: the search occurs in the username or the display name. */
  predicate Keeps(search: string, u: User)
  {
    TextSearch.Matches(u.username, search) || TextSearch.Matches(u.displayName, search)
  }

  function KeepsFn(search: string): User -> bool
  {
    u => Keeps(search, u)
  }

  /** The rows shown: the listed ones, in their original order. */
  function Filtered(users: seq<User>, search: string): (r: seq<User>)
    ensures Filtering.IsSubsequence(r, users)
    ensures forall u :: u in r <==> u in users && Keeps(search, u)
    ensures forall u :: multiset(r)[u] == if Keeps(search, u) then multiset(users)[u] else 0
  {
    Filtering.FilterIsSubsequence(users, KeepsFn(search));
    Filtering.FilterMembership(users, KeepsFn(search));
    Filtering.FilterCount(users, KeepsFn(search));
    Filtering.Filter(users, KeepsFn(search))
  }

  /** With no search text every user is listed. */
  lemma EmptySearchKeepsAll(users: seq<User>)
    ensures Filtered(users, "") == users
  {
    forall k | 0 <= k < |users|
      ensures Keeps("", users[k])
    {
      TextSearch.EmptyMatches(users[k].username);
    }
    Filtering.FilterKeepsAll(users, KeepsFn(""));
  }

  /** The search ignores the case of the search text. */
  lemma SearchIgnoresCase(users: seq<User>, s: string, t: string)
    requires Strings.Lower(s) == Strings.Lower(t)
    ensures Filtered(users, s) == Filtered(users, t)
  {
    Filtering.FilterAgree(users, KeepsFn(s), KeepsFn(t));
  }

  /** Typing more characters never lists more users. */
  lemma LongerSearchNarrows(users: seq<User>, s: string, t: string)
    ensures Filtering.IsSubsequence(Filtered(users, s + t), Filtered(users, s))
  {
    forall k | 0 <= k < |users|
      ensures Keeps(s + t, users[k]) ==> Keeps(s, users[k])
    {
      TextSearch.LongerSearchMatchesLess(users[k].username, s, t);
      TextSearch.LongerSearchMatchesLess(users[k].displayName, s, t);
    }
    Filtering.FilterStricter(users, KeepsFn(s + t), KeepsFn(s));
  }

  /** The avatar placeholder: the display name's first character, upper-cased;
      empty when the display name is. */
  function AvatarFallback(u: User): (f: string)
    ensures |f| <= 1
    ensures f == "" <==> u.displayName == ""
    ensures f != "" ==> f[0] == Strings.UpperChar(u.displayName[0])
  {
    if u.displayName == "" then "" else [Strings.UpperChar(u.displayName[0])]
  }

  /** The bio column: the bio, or a dash when there is none. */
  function BioText(u: User): (t: string)
    ensures u.bio.Some? ==> t == u.bio.value
    ensures u.bio.None? ==> t == "—"
  {
    u.bio.GetOr("—")
  }
}
