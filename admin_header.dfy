/** The admin header's breadcrumb trail (src/components/admin/AdminHeader.tsx):
    the pathname is split on "/", empty pieces are dropped, and crumb i links
    to the first i + 1 segments joined with "/" behind a leading "/". */
module AdminHeader {
  import opened Strings
  import Filtering

  /** `Boolean` as a filter on strings: the empty string is falsy. */
  function NonEmpty(s: string): bool { s != "" }

  /** `pathname.split("/").filter(Boolean)` */
  function Segments(pathname: string): (segs: seq<string>)
    ensures forall k :: 0 <= k < |segs| ==> segs[k] != "" && '/' !in segs[k]
  {
    var parts := Split(pathname, '/');
    Filtering.FilterMembership(parts, NonEmpty);
    Filtering.Filter(parts, NonEmpty)
  }

  datatype Crumb = Crumb(name: string, href: string)

  /** The crumbs for a list of segments: one per segment, named by it and
      linking to the segments up to and including it. */
  function CrumbsOf(segs: seq<string>): (crumbs: seq<Crumb>)
    ensures |crumbs| == |segs|
    ensures forall i :: 0 <= i < |crumbs| ==> crumbs[i].name == Capitalize(segs[i])
    ensures forall i :: 0 <= i < |crumbs| ==> crumbs[i].href == "/" + Join(segs[..i + 1], '/')
  {
    seq(|segs|, i requires 0 <= i < |segs| => Crumb(Capitalize(segs[i]), "/" + Join(segs[..i + 1], '/')))
  }

  /** The breadcrumbs the header shows for a pathname. */
  function Breadcrumbs(pathname: string): (crumbs: seq<Crumb>)
    ensures |crumbs| == |Segments(pathname)|
    ensures forall i :: 0 <= i < |crumbs| ==> crumbs[i].name == Capitalize(Segments(pathname)[i])
    ensures forall i :: 0 <= i < |crumbs| ==> crumbs[i].href == "/" + Join(Segments(pathname)[..i + 1], '/')
  {
    CrumbsOf(Segments(pathname))
  }

  /** The root and the empty path show no crumbs; slashes alone make no segment. */
  lemma NoCrumbsAtRoot()
    ensures Breadcrumbs("") == []
    ensures Breadcrumbs("/") == []
    ensures Breadcrumbs("//") == []
  {
    assert Split("", '/') == [""];
    assert Split("/", '/') == ["", ""];
    assert Split("//", '/') == ["", "", ""];
  }

  /** Each crumb is labelled with its segment, first character upper-cased, rest unchanged. */
  lemma CrumbLabel(pathname: string, i: nat)
    requires i < |Breadcrumbs(pathname)|
    ensures var seg := Segments(pathname)[i];
      var name := Breadcrumbs(pathname)[i].name;
      && |name| == |seg| && name[0] == UpperChar(seg[0]) && name[1..] == seg[1..]
  {
  }

  /** Whenever there is a crumb at all (a one-segment path such as "/admin"
      included), the first links to "/" and its own segment. */
  lemma FirstCrumbHref(pathname: string)
    requires |Breadcrumbs(pathname)| >= 1
    ensures Breadcrumbs(pathname)[0].href == "/" + Segments(pathname)[0]
  {
    var segs := Segments(pathname);
    assert segs[..1] == [segs[0]];
  }

  /** The first crumb links to its segment; each further crumb's link extends
      the previous one by "/" and its own segment. */
  lemma CrumbHrefsExtend(pathname: string, i: nat)
    requires i + 1 < |Breadcrumbs(pathname)|
    ensures var crumbs, segs := Breadcrumbs(pathname), Segments(pathname);
      && crumbs[0].href == "/" + segs[0]
      && crumbs[i + 1].href == crumbs[i].href + "/" + segs[i + 1]
  {
    var segs := Segments(pathname);
    assert segs[..1] == [segs[0]];
    assert segs[..i + 2] == segs[..i + 1] + [segs[i + 1]];
    JoinSnoc(segs[..i + 1], segs[i + 1], '/');
  }

  /** Segments free of "/" and non-empty survive joining and re-splitting. */
  lemma SegmentsOfJoined(segs: seq<string>)
    requires |segs| >= 1
    requires forall k :: 0 <= k < |segs| ==> segs[k] != "" && '/' !in segs[k]
    ensures Segments("/" + Join(segs, '/')) == segs
  {
    var joined := Join(segs, '/');
    SplitSepFirst(joined, '/');
    SplitJoin(segs, '/');
    var parts := Split("/" + joined, '/');
    assert "/" + joined == ['/'] + joined;
    assert parts == [""] + segs;
    assert parts[1..] == segs;
    assert Filtering.Filter(parts, NonEmpty) == Filtering.Filter(segs, NonEmpty);
    Filtering.FilterKeepsAll(segs, NonEmpty);
  }

  /** Following crumb i's link shows crumbs 0..i again: recomputing the trail from
      any crumb's link loses nothing, and repeated or trailing slashes are gone. */
  lemma CrumbLinkReproducesTrail(pathname: string, i: nat)
    requires i < |Breadcrumbs(pathname)|
    ensures Breadcrumbs(Breadcrumbs(pathname)[i].href) == Breadcrumbs(pathname)[..i + 1]
  {
    var segs := Segments(pathname);
    var prefix := segs[..i + 1];
    SegmentsOfJoined(prefix);
    assert Segments(Breadcrumbs(pathname)[i].href) == prefix;
    forall j | 0 <= j <= i
      ensures CrumbsOf(prefix)[j] == CrumbsOf(segs)[j]
    {
      assert prefix[..j + 1] == segs[..j + 1];
    }
  }

  /** How a crumb is shown: the current page as text, the others as links. */
  datatype ShownCrumb = Current(text: string) | Linked(text: string, target: string)

  function Shown(crumbs: seq<Crumb>): (shown: seq<ShownCrumb>)
    ensures |shown| == |crumbs|
    ensures forall i :: 0 <= i < |crumbs| ==> shown[i].text == crumbs[i].name
    ensures forall i :: 0 <= i < |crumbs| ==> (shown[i].Current? <==> i == |crumbs| - 1)
    ensures forall i :: 0 <= i < |crumbs| && shown[i].Linked? ==> shown[i].target == crumbs[i].href
  {
    seq(|crumbs|, i requires 0 <= i < |crumbs| =>
      if i == |crumbs| - 1 then Current(crumbs[i].name) else Linked(crumbs[i].name, crumbs[i].href))
  }

  /** The crumbs of a two-segment path. */
  lemma TwoCrumbs(a: string, b: string)
    ensures CrumbsOf([a, b]) == [Crumb(Capitalize(a), "/" + a), Crumb(Capitalize(b), "/" + a + "/" + b)]
  {
    var crumbs := CrumbsOf([a, b]);
    assert [a, b][..1] == [a];
    assert [a, b][..2] == [a, b];
    assert Join([a], '/') == a;
    assert [a, b][1..] == [b];
    assert Join([a, b], '/') == a + "/" + b;
    assert crumbs[0] == Crumb(Capitalize(a), "/" + a);
    assert crumbs[1] == Crumb(Capitalize(b), "/" + a + "/" + b);
  }

  /** The crumbs for the segments "admin" and "places". */
  lemma AdminPlacesCrumbs()
    ensures CrumbsOf(["admin", "places"]) == [Crumb("Admin", "/admin"), Crumb("Places", "/admin/places")]
  {
    TwoCrumbs("admin", "places");
    assert Capitalize("admin") == "Admin" by { assert UpperChar('a') == 'A'; }
    assert Capitalize("places") == "Places" by { assert UpperChar('p') == 'P'; }
    assert "/" + "admin" == "/admin";
    assert "/" + "admin" + "/" + "places" == "/admin/places";
  }

  /** An example: "/admin/places" shows "Admin" linking to "/admin", then "Places". */
  lemma PlacesTrail(path: string)
    requires path == "/admin/places"
    ensures Breadcrumbs(path) == [Crumb("Admin", "/admin"), Crumb("Places", "/admin/places")]
  {
    var segs := ["admin", "places"];
    assert path == "/" + Join(segs, '/');
    SegmentsOfJoined(segs);
    AdminPlacesCrumbs();
  }
}
