/** Fixed strings of the app (src/lib/constants.ts): the deep-link scheme
    and its six per-entity path templates, the store listing, and the label
    and colour tables. `ParseEntityLink` reads a deep link back; every
    builder's link reads back to what was built (`BuilderRoundTrip`) and every
    link that reads back is the one its builder makes (`ParseThenBuild`), which
    makes each builder injective and links of different kinds distinct. */
module Constants {
  import opened Wrappers
  import Strings
  import Types

  const DeepLinkScheme: string := "wellington://"
  const AppName: string := "Welly"
  const AppStoreId: string := "6758979767"
  const AppStoreUrl: string := "https://apps.apple.com/app/welly-go-local/id" + AppStoreId
  const PlayStoreUrl: string := "https://play.google.com/store/apps/details?id=com.welly.app"
  const BrandColor: string := "#00A5E0"

  const CategoryLabels: map<string, string> := map[
    "cafe" := "Cafe",
    "restaurant" := "Restaurant",
    "bar" := "Bar",
    "attraction" := "Attraction",
    "park" := "Park",
    "venue" := "Venue",
    "trail" := "Trail"]

  const DifficultyLabels: map<string, string> := map[
    "easy" := "Easy",
    "moderate" := "Moderate",
    "hard" := "Hard"]

  const DifficultyColors: map<string, string> := map[
    "easy" := "#22C55E",
    "moderate" := "#F59E0B",
    "hard" := "#EF4444"]

  /** The entities the native app can open. */
  datatype EntityKind = PostKind | EventKind | PlaceKind | UserKind | TrailKind | GuideKind

  /** The path template in front of an entity's id. */
  function KindPath(k: EntityKind): string
  {
    match k
    case PostKind => "feed/post/"
    case EventKind => "events/"
    case PlaceKind => "feed/place/"
    case UserKind => "feed/user/"
    case TrailKind => "map/trail/"
    case GuideKind => "feed/guide/"
  }

  /** The path of a deep link, or None if link is not one. */
  function PathOf(link: string): Option<string>
  {
    if DeepLinkScheme + "/" <= link then Some(link[|DeepLinkScheme| + 1..]) else None
  }

  /** getDeepLink */
  function DeepLink(path: string): (link: string)
    ensures PathOf(link) == Some(path)
    ensures DeepLinkScheme <= link
  {
    DeepLinkScheme + "/" + path
  }

  /** The kind whose template starts the path, tried in a fixed order. */
  function KindOfPath(p: string): Option<EntityKind>
  {
    if KindPath(PostKind) <= p then Some(PostKind)
    else if KindPath(EventKind) <= p then Some(EventKind)
    else if KindPath(PlaceKind) <= p then Some(PlaceKind)
    else if KindPath(UserKind) <= p then Some(UserKind)
    else if KindPath(TrailKind) <= p then Some(TrailKind)
    else if KindPath(GuideKind) <= p then Some(GuideKind)
    else None
  }

  datatype EntityRef = EntityRef(kind: EntityKind, id: string)

  /** Reads a deep link back into the entity it opens. */
  function ParseEntityLink(link: string): Option<EntityRef>
  {
    match PathOf(link)
    case None => None
    case Some(p) =>
      match KindOfPath(p)
      case None => None
      case Some(k) => Some(EntityRef(k, p[|KindPath(k)|..]))
  }

  lemma NotPrefixAt(a: string, b: string, i: nat)
    requires i < |a| && i < |b| && a[i] != b[i]
    ensures !(a <= b)
  {
  }

  /** No template is a prefix of a path built from another template. */
  lemma {:induction false} KindOfBuiltPath(k: EntityKind, id: string)
    ensures KindOfPath(KindPath(k) + id) == Some(k)
  {
    var p := KindPath(k) + id;
    assert KindPath(k) <= p;
    match k
    case PostKind =>
    case EventKind =>
      NotPrefixAt(KindPath(PostKind), p, 0);
    case PlaceKind =>
      NotPrefixAt(KindPath(PostKind), p, 6);
      NotPrefixAt(KindPath(EventKind), p, 0);
    case UserKind =>
      NotPrefixAt(KindPath(PostKind), p, 5);
      NotPrefixAt(KindPath(EventKind), p, 0);
      NotPrefixAt(KindPath(PlaceKind), p, 5);
    case TrailKind =>
      NotPrefixAt(KindPath(PostKind), p, 0);
      NotPrefixAt(KindPath(EventKind), p, 0);
      NotPrefixAt(KindPath(PlaceKind), p, 0);
      NotPrefixAt(KindPath(UserKind), p, 0);
    case GuideKind =>
      NotPrefixAt(KindPath(PostKind), p, 5);
      NotPrefixAt(KindPath(EventKind), p, 0);
      NotPrefixAt(KindPath(PlaceKind), p, 5);
      NotPrefixAt(KindPath(UserKind), p, 5);
      NotPrefixAt(KindPath(TrailKind), p, 0);
  }

  /** A link made from a kind's template and an id reads back as that entity. */
  lemma EntityLinkRoundTrip(k: EntityKind, id: string)
    ensures ParseEntityLink(DeepLink(KindPath(k) + id)) == Some(EntityRef(k, id))
  {
    KindOfBuiltPath(k, id);
    assert (KindPath(k) + id)[|KindPath(k)|..] == id;
  }

  /** getPostDeepLink */
  function PostDeepLink(postId: string): string
  {
    DeepLink("feed/post/" + postId)
  }

  /** getEventDeepLink */
  function EventDeepLink(eventId: string): string
  {
    DeepLink("events/" + eventId)
  }

  /** getPlaceDeepLink */
  function PlaceDeepLink(placeId: string): string
  {
    DeepLink("feed/place/" + placeId)
  }

  /** getUserDeepLink */
  function UserDeepLink(userId: string): string
  {
    DeepLink("feed/user/" + userId)
  }

  /** getTrailDeepLink */
  function TrailDeepLink(trailId: string): string
  {
    DeepLink("map/trail/" + trailId)
  }

  /** getGuideDeepLink */
  function GuideDeepLink(guideId: string): string
  {
    DeepLink("feed/guide/" + guideId)
  }

  /** The builder for each kind. */
  function BuildLink(k: EntityKind, id: string): string
  {
    match k
    case PostKind => PostDeepLink(id)
    case EventKind => EventDeepLink(id)
    case PlaceKind => PlaceDeepLink(id)
    case UserKind => UserDeepLink(id)
    case TrailKind => TrailDeepLink(id)
    case GuideKind => GuideDeepLink(id)
  }

  /** The builders use the scheme, a slash and the kind's template. */
  lemma BuilderUsesTemplate(k: EntityKind, id: string)
    ensures BuildLink(k, id) == DeepLink(KindPath(k) + id)
    ensures BuildLink(k, id) == DeepLinkScheme + "/" + KindPath(k) + id
  {
  }

  /** Every builder's link reads back as the entity it was built for. */
  lemma BuilderRoundTrip(k: EntityKind, id: string)
    ensures ParseEntityLink(BuildLink(k, id)) == Some(EntityRef(k, id))
  {
    BuilderUsesTemplate(k, id);
    EntityLinkRoundTrip(k, id);
  }

  /** Conversely, a link that reads back at all is exactly the link the builder
      makes for what it reads back as: parsing loses nothing. */
  lemma ParseThenBuild(link: string)
    ensures ParseEntityLink(link).Some? ==>
      BuildLink(ParseEntityLink(link).value.kind, ParseEntityLink(link).value.id) == link
  {
    if ParseEntityLink(link).Some? {
      var r := ParseEntityLink(link).value;
      var p := PathOf(link).value;
      assert link == DeepLinkScheme + "/" + p;
      assert KindPath(r.kind) <= p;
      assert p == KindPath(r.kind) + r.id;
      BuilderUsesTemplate(r.kind, r.id);
    }
  }

  /** Every deep link starts with the scheme and ends with the id it was built from. */
  lemma LinkShape(k: EntityKind, id: string)
    ensures DeepLinkScheme <= BuildLink(k, id)
    ensures |id| <= |BuildLink(k, id)|
    ensures BuildLink(k, id)[|BuildLink(k, id)| - |id|..] == id
  {
    var link := BuildLink(k, id);
    BuilderUsesTemplate(k, id);
    assert link == (DeepLinkScheme + "/" + KindPath(k)) + id;
  }

  /** Two links are equal only if they open the same entity: each builder is
      injective and links of different kinds never coincide. */
  lemma LinksDistinct(k1: EntityKind, id1: string, k2: EntityKind, id2: string)
    requires BuildLink(k1, id1) == BuildLink(k2, id2)
    ensures k1 == k2 && id1 == id2
  {
    BuilderRoundTrip(k1, id1);
    BuilderRoundTrip(k2, id2);
  }

  /** The exact links of src/lib/__tests__/constants.test.ts. */
  lemma KnownDeepLinks()
    ensures DeepLink("some/path") == "wellington:///some/path"
    ensures DeepLink("") == "wellington:///"
  {
  }

  lemma KnownPostLink()
    ensures PostDeepLink("abc-123") == "wellington:///feed/post/abc-123"
  {
  }

  lemma KnownEventLink()
    ensures EventDeepLink("evt-1") == "wellington:///events/evt-1"
  {
  }

  lemma KnownPlaceLink()
    ensures PlaceDeepLink("place-1") == "wellington:///feed/place/place-1"
  {
  }

  lemma KnownUserLink()
    ensures UserDeepLink("user-1") == "wellington:///feed/user/user-1"
  {
  }

  lemma KnownTrailLink()
    ensures TrailDeepLink("trail-1") == "wellington:///map/trail/trail-1"
  {
  }

  lemma KnownGuideLink()
    ensures GuideDeepLink("guide-1") == "wellington:///feed/guide/guide-1"
  {
  }

  /** The store URL ends with "id" and the store id, so it contains the id. */
  lemma AppStoreUrlHasId()
    ensures |AppStoreUrl| >= |AppStoreId| + 2
    ensures AppStoreUrl[|AppStoreUrl| - |AppStoreId| - 2..] == "id" + AppStoreId
    ensures Strings.Includes(AppStoreUrl, AppStoreId)
  {
    var at := |AppStoreUrl| - |AppStoreId|;
    assert Strings.OccursAt(AppStoreUrl, AppStoreId, at);
    Strings.IncludesIffOccurs(AppStoreUrl, AppStoreId);
  }

  /** The label tables cover exactly the enumerations. */
  lemma TablesCoverEnumerations()
    ensures CategoryLabels.Keys == Types.PlaceCategories
    ensures DifficultyLabels.Keys == Types.Difficulties
    ensures DifficultyColors.Keys == DifficultyLabels.Keys
  {
  }
}
