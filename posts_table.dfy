/** The admin posts list (src/components/admin/posts/PostsTable.tsx): its own
    row shape with optional author and place names, a search over content,
    author and place, and the fallbacks the rows show. */
module PostsTable {
  import opened Wrappers
  import Strings
  import TextSearch
  import Filtering

  /** A post as the admin page hands it to the table. */
  datatype PostRow = PostRow(
    id: string,
    content: string,
    postType: string,
    likes: int,
    createdAt: string,
    username: Option<string>,
    placeName: Option<string>)

  /** `field?.toLowerCase().includes(q)`: an absent field never matches. */
  predicate OptionalMatches(field: Option<string>, search: string)
  {
    field.Some? && TextSearch.Matches(field.value, search)
  }

  /** Whether the post is listed: the search occurs in its content, its author's
      username or its place's name. */
  predicate Keeps(search: string, p: PostRow)
  {
    TextSearch.Matches(p.content, search) || OptionalMatches(p.username, search) || OptionalMatches(p.placeName, search)
  }

  function KeepsFn(search: string): PostRow -> bool
  {
    p => Keeps(search, p)
  }

  /** The rows shown: the listed ones, in their original order. */
  function Filtered(posts: seq<PostRow>, search: string): (r: seq<PostRow>)
    ensures Filtering.IsSubsequence(r, posts)
    ensures forall p :: p in r <==> p in posts && Keeps(search, p)
    ensures forall p :: multiset(r)[p] == if Keeps(search, p) then multiset(posts)[p] else 0
  {
    Filtering.FilterIsSubsequence(posts, KeepsFn(search));
    Filtering.FilterMembership(posts, KeepsFn(search));
    Filtering.FilterCount(posts, KeepsFn(search));
    Filtering.Filter(posts, KeepsFn(search))
  }

  /** A post without author and place names is listed only through its content. */
  lemma AbsentNamesNeverMatch(search: string, p: PostRow)
    requires p.username.None? && p.placeName.None?
    ensures Keeps(search, p) <==> TextSearch.Matches(p.content, search)
  {
  }

  /** With no search text every post is listed, since every content contains "". */
  lemma EmptySearchKeepsAll(posts: seq<PostRow>)
    ensures Filtered(posts, "") == posts
  {
    forall k | 0 <= k < |posts|
      ensures Keeps("", posts[k])
    {
      TextSearch.EmptyMatches(posts[k].content);
    }
    Filtering.FilterKeepsAll(posts, KeepsFn(""));
  }

  /** The search ignores the case of the search text. */
  lemma SearchIgnoresCase(posts: seq<PostRow>, s: string, t: string)
    requires Strings.Lower(s) == Strings.Lower(t)
    ensures Filtered(posts, s) == Filtered(posts, t)
  {
    Filtering.FilterAgree(posts, KeepsFn(s), KeepsFn(t));
  }

  /** Typing more characters never lists more posts. */
  lemma LongerSearchNarrows(posts: seq<PostRow>, s: string, t: string)
    ensures Filtering.IsSubsequence(Filtered(posts, s + t), Filtered(posts, s))
  {
    forall k | 0 <= k < |posts|
      ensures Keeps(s + t, posts[k]) ==> Keeps(s, posts[k])
    {
      var p := posts[k];
      TextSearch.LongerSearchMatchesLess(p.content, s, t);
      if p.username.Some? {
        TextSearch.LongerSearchMatchesLess(p.username.value, s, t);
      }
      if p.placeName.Some? {
        TextSearch.LongerSearchMatchesLess(p.placeName.value, s, t);
      }
    }
    Filtering.FilterStricter(posts, KeepsFn(s + t), KeepsFn(s));
  }

  /** The content column: the content, or "(no text)" when it is empty. */
  function ContentText(p: PostRow): (t: string)
    ensures p.content != "" ==> t == p.content
    ensures p.content == "" ==> t == "(no text)"
    ensures t != ""
  {
    if p.content == "" then "(no text)" else p.content
  }

  /** The author and place columns: the name, or a dash when there is none. */
  function NameText(name: Option<string>): (t: string)
    ensures name.Some? ==> t == name.value
    ensures name.None? ==> t == "—"
  {
    name.GetOr("—")
  }
}
