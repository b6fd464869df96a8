/** View models the pages and admin tables render (camelCase, with optional
    fields absent rather than null). MediaItem, Post, Place, Event and User
    follow src/lib/types.ts; Trail, Guide and GuidePlace have the shapes that
    the mappers build. Enumerated strings (post type, place category, event
    category, difficulty) stay plain strings because the mappers only cast
    them; the enumerations are listed as constants. */
module Types {
  import opened Wrappers

  const PostTypes: set<string> := {"photo", "video", "text"}
  const MediaTypes: set<string> := {"photo", "video"}
  const PlaceCategories: set<string> := {"cafe", "restaurant", "bar", "attraction", "park", "venue", "trail"}
  const EventCategories: set<string> :=
    {"music", "comedy", "art", "food", "market", "community", "quiz", "craft", "kids", "cultural"}
  const Difficulties: set<string> := {"easy", "moderate", "hard"}

  datatype MediaItem = MediaItem(
    id: string,
    mediaUrl: string,
    thumbnailUrl: Option<string>,
    mediaType: string,
    mediaWidth: Option<int>,
    mediaHeight: Option<int>,
    sortOrder: int)

  datatype Post = Post(
    id: string,
    userId: string,
    placeId: string,
    postType: string,
    content: string,
    mediaUrl: Option<string>,
    thumbnailUrl: Option<string>,
    mediaWidth: Option<int>,
    mediaHeight: Option<int>,
    likes: int,
    createdAt: string,
    media: Option<seq<MediaItem>>)

  /** Latitude and longitude are floating-point numbers that are only copied. */
  datatype Place = Place(
    id: string,
    name: string,
    category: string,
    address: string,
    latitude: real,
    longitude: real)

  /** `price` is optional and nullable: absent, null (unspecified) or a number. */
  datatype Event = Event(
    id: string,
    title: string,
    description: string,
    placeId: string,
    date: string,
    startTime: string,
    endTime: Option<string>,
    imageUrl: Option<string>,
    category: string,
    attendeeIds: Option<seq<string>>,
    ticketUrl: Option<string>,
    price: Option<Nullable<real>>)

  datatype User = User(
    id: string,
    username: string,
    displayName: string,
    avatarUrl: string,
    bio: Option<string>)

  datatype Trail = Trail(
    id: string,
    name: string,
    description: string,
    elevation: string,
    distance: string,
    duration: string,
    difficulty: string,
    highlights: seq<string>,
    placeId: string)

  datatype Guide = Guide(
    id: string,
    userId: string,
    title: string,
    description: Option<string>,
    coverImageUrl: Option<string>,
    likes: int,
    createdAt: string)

  datatype GuidePlace = GuidePlace(
    placeId: string,
    sortOrder: int,
    note: Option<string>,
    place: Place)
}
