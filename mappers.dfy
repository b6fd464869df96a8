/** Backend rows (snake_case, `null` for missing values) and the mappers that
    turn them into view models (src/lib/mappers.ts). Every mapper copies each
    field under its camelCase name and turns `null` into an absent field,
    except an event's price, whose `null` is kept. `MapPost` also sorts the
    caller's media array in place. */
module Mappers {
  import opened Wrappers
  import opened Types
  import StableSort

  datatype MediaRow = MediaRow(
    id: string,
    mediaUrl: string,
    thumbnailUrl: Nullable<string>,
    mediaType: string,
    mediaWidth: Nullable<int>,
    mediaHeight: Nullable<int>,
    sortOrder: int)

  /** `media_width` and `media_height` may be missing as well as null;
      `post_media` may be missing, and is an array the mapper sorts in place. */
  datatype PostRow = PostRow(
    id: string,
    userId: string,
    placeId: string,
    postType: string,
    content: string,
    mediaUrl: Nullable<string>,
    thumbnailUrl: Nullable<string>,
    mediaWidth: Option<Nullable<int>>,
    mediaHeight: Option<Nullable<int>>,
    likes: int,
    createdAt: string,
    postMedia: Option<array<MediaRow>>)

  datatype EventRow = EventRow(
    id: string,
    title: string,
    description: string,
    placeId: string,
    date: string,
    startTime: string,
    endTime: Nullable<string>,
    imageUrl: Nullable<string>,
    category: string,
    ticketUrl: Nullable<string>,
    price: Nullable<real>)

  datatype PlaceRow = PlaceRow(
    id: string,
    name: string,
    category: string,
    address: string,
    latitude: real,
    longitude: real)

  /** The `highlights` column as the query layer returns it: a list, or any other value. */
  datatype RawHighlights = HighlightList(items: seq<string>) | NotAList

  datatype TrailRow = TrailRow(
    id: string,
    name: string,
    description: string,
    elevation: string,
    distance: string,
    duration: string,
    difficulty: string,
    highlights: RawHighlights,
    placeId: string)

  datatype GuideRow = GuideRow(
    id: string,
    userId: string,
    title: string,
    description: Nullable<string>,
    coverImageUrl: Nullable<string>,
    likes: int,
    createdAt: string)

  /** A joined `places` value: the query layer returns one object or a list of them. */
  datatype PlacesJoin = OnePlace(place: PlaceRow) | PlaceList(places: seq<PlaceRow>)

  datatype GuidePlaceRow = GuidePlaceRow(
    placeId: string,
    sortOrder: int,
    note: Nullable<string>,
    places: PlacesJoin)

  datatype ProfileRow = ProfileRow(
    id: string,
    username: string,
    displayName: string,
    avatarUrl: string,
    bio: Nullable<string>)

  // ---------------------------------------------------------------------------
  // Inverses: view model back to row. A mapper that an inverse undoes loses
  // nothing and puts every field in its place.

  function MediaRowOf(m: MediaItem): MediaRow {
    MediaRow(m.id, m.mediaUrl, AbsentToNull(m.thumbnailUrl), m.mediaType,
             AbsentToNull(m.mediaWidth), AbsentToNull(m.mediaHeight), m.sortOrder)
  }

  function EventRowOf(e: Event): EventRow
    requires e.price.Some?
  {
    EventRow(e.id, e.title, e.description, e.placeId, e.date, e.startTime,
             AbsentToNull(e.endTime), AbsentToNull(e.imageUrl), e.category,
             AbsentToNull(e.ticketUrl), e.price.value)
  }

  function PlaceRowOf(p: Place): PlaceRow {
    PlaceRow(p.id, p.name, p.category, p.address, p.latitude, p.longitude)
  }

  function GuideRowOf(g: Guide): GuideRow {
    GuideRow(g.id, g.userId, g.title, AbsentToNull(g.description),
             AbsentToNull(g.coverImageUrl), g.likes, g.createdAt)
  }

  function ProfileRowOf(u: User): ProfileRow {
    ProfileRow(u.id, u.username, u.displayName, u.avatarUrl, AbsentToNull(u.bio))
  }

  // ---------------------------------------------------------------------------
  // Mappers

  /** mapMediaItem */
  function MapMediaItem(row: MediaRow): (m: MediaItem)
    ensures MediaRowOf(m) == row
    ensures m.thumbnailUrl.None? <==> row.thumbnailUrl.Null?
    ensures m.mediaWidth.None? <==> row.mediaWidth.Null?
    ensures m.mediaHeight.None? <==> row.mediaHeight.Null?
  {
    MediaItem(row.id, row.mediaUrl, NullToAbsent(row.thumbnailUrl), row.mediaType,
              NullToAbsent(row.mediaWidth), NullToAbsent(row.mediaHeight), row.sortOrder)
  }

  /** The key the media rows are sorted by. */
  function SortOrderOf(r: MediaRow): int { r.sortOrder }

  /** `rows.map(mapMediaItem)` */
  function MapMediaItems(rows: seq<MediaRow>): (items: seq<MediaItem>)
    ensures |items| == |rows|
    ensures forall i :: 0 <= i < |rows| ==> MediaRowOf(items[i]) == rows[i]
  {
    seq(|rows|, i requires 0 <= i < |rows| => MapMediaItem(rows[i]))
  }

  /** `media.length > 0 ? media : undefined` */
  function MediaOf(sortedRows: seq<MediaRow>): (media: Option<seq<MediaItem>>)
    ensures media.None? <==> sortedRows == []
    ensures media.Some? ==> media.value == MapMediaItems(sortedRows)
  {
    if |sortedRows| > 0 then Some(MapMediaItems(sortedRows)) else None
  }

  /** The post `mapPost` returns, once the media rows are in order. */
  function PostOf(row: PostRow, sortedRows: seq<MediaRow>): (p: Post)
    ensures p.id == row.id && p.userId == row.userId && p.placeId == row.placeId
    ensures p.postType == row.postType && p.content == row.content
    ensures p.likes == row.likes && p.createdAt == row.createdAt
    ensures p.mediaUrl.None? <==> row.mediaUrl.Null?
    ensures p.mediaUrl.Some? ==> p.mediaUrl.value == row.mediaUrl.value
    ensures p.thumbnailUrl.None? <==> row.thumbnailUrl.Null?
    ensures p.thumbnailUrl.Some? ==> p.thumbnailUrl.value == row.thumbnailUrl.value
    ensures p.mediaWidth.None? <==> (row.mediaWidth.None? || row.mediaWidth.value.Null?)
    ensures p.mediaWidth.Some? ==> p.mediaWidth.value == row.mediaWidth.value.value
    ensures p.mediaHeight.None? <==> (row.mediaHeight.None? || row.mediaHeight.value.Null?)
    ensures p.mediaHeight.Some? ==> p.mediaHeight.value == row.mediaHeight.value.value
    ensures p.media == MediaOf(sortedRows)
  {
    Post(row.id, row.userId, row.placeId, row.postType, row.content,
         NullToAbsent(row.mediaUrl), NullToAbsent(row.thumbnailUrl),
         MissingOrNullToAbsent(row.mediaWidth), MissingOrNullToAbsent(row.mediaHeight),
         row.likes, row.createdAt, MediaOf(sortedRows))
  }

  /** The arrays `mapPost` may change: the row's own media array, if any. */
  function MediaArrays(row: PostRow): set<array<MediaRow>> {
    if row.postMedia.Some? then {row.postMedia.value} else {}
  }

  /** mapPost: sorts `row.post_media` in place by sort order, then maps it. */
  method MapPost(row: PostRow) returns (post: Post)
    modifies MediaArrays(row)
    ensures row.postMedia.Some? ==>
      row.postMedia.value[..] == StableSort.Sort(old(row.postMedia.value[..]), SortOrderOf)
    ensures row.postMedia.Some? ==>
      post == PostOf(row, StableSort.Sort(old(row.postMedia.value[..]), SortOrderOf))
    ensures row.postMedia.None? ==> post == PostOf(row, [])
  {
    var rows: seq<MediaRow> := [];
    if row.postMedia.Some? {
      StableSort.SortInPlace(row.postMedia.value, SortOrderOf);
      rows := row.postMedia.value[..];
    }
    post := PostOf(row, rows);
  }

  /** mapEvent: null end time, image and ticket link become absent; the price,
      null included, is kept and is never absent. */
  function MapEvent(row: EventRow): (e: Event)
    ensures e.price == Some(row.price)
    ensures EventRowOf(e) == row
    ensures e.endTime.None? <==> row.endTime.Null?
    ensures e.imageUrl.None? <==> row.imageUrl.Null?
    ensures e.ticketUrl.None? <==> row.ticketUrl.Null?
    ensures e.attendeeIds.None?
  {
    Event(row.id, row.title, row.description, row.placeId, row.date, row.startTime,
          NullToAbsent(row.endTime), NullToAbsent(row.imageUrl), row.category, None,
          NullToAbsent(row.ticketUrl), Some(row.price))
  }

  /** mapPlace */
  function MapPlace(row: PlaceRow): (p: Place)
    ensures PlaceRowOf(p) == row
  {
    Place(row.id, row.name, row.category, row.address, row.latitude, row.longitude)
  }

  /** mapTrail: `highlights` passes through when it is a list and is `[]` otherwise. */
  function MapTrail(row: TrailRow): (t: Trail)
    ensures t.id == row.id && t.name == row.name && t.description == row.description
    ensures t.elevation == row.elevation && t.distance == row.distance && t.duration == row.duration
    ensures t.difficulty == row.difficulty && t.placeId == row.placeId
    ensures row.highlights.HighlightList? ==> t.highlights == row.highlights.items
    ensures row.highlights.NotAList? ==> t.highlights == []
  {
    Trail(row.id, row.name, row.description, row.elevation, row.distance, row.duration,
          row.difficulty,
          match row.highlights
          case HighlightList(items) => items
          case NotAList => [],
          row.placeId)
  }

  /** mapGuide */
  function MapGuide(row: GuideRow): (g: Guide)
    ensures GuideRowOf(g) == row
    ensures g.description.None? <==> row.description.Null?
    ensures g.coverImageUrl.None? <==> row.coverImageUrl.Null?
  {
    Guide(row.id, row.userId, row.title, NullToAbsent(row.description),
          NullToAbsent(row.coverImageUrl), row.likes, row.createdAt)
  }

  /** The place a join returned: the first element of a list, or the object
      itself. An empty list has no first element, and `mapPlace(undefined)`
      then throws; `None` stands for that error. */
  function PlaceData(j: PlacesJoin): (p: Option<PlaceRow>)
    ensures p.None? <==> j == PlaceList([])
    ensures j.OnePlace? ==> p == Some(j.place)
    ensures j.PlaceList? && j.places != [] ==> p == Some(j.places[0])
  {
    match j
    case OnePlace(p) => Some(p)
    case PlaceList(ps) => if ps == [] then None else Some(ps[0])
  }

  /** mapGuidePlace; `None` when the joined list is empty and the mapper throws. */
  function MapGuidePlace(row: GuidePlaceRow): (r: Option<GuidePlace>)
    ensures r.None? <==> row.places == PlaceList([])
    ensures r.Some? ==> r.value.placeId == row.placeId && r.value.sortOrder == row.sortOrder
    ensures r.Some? ==> (r.value.note.None? <==> row.note.Null?)
    ensures r.Some? && r.value.note.Some? ==> r.value.note.value == row.note.value
    ensures row.places.OnePlace? ==> r.Some? && PlaceRowOf(r.value.place) == row.places.place
    ensures row.places.PlaceList? && row.places.places != [] ==>
      r.Some? && PlaceRowOf(r.value.place) == row.places.places[0]
  {
    match PlaceData(row.places)
    case None => None
    case Some(p) => Some(GuidePlace(row.placeId, row.sortOrder, NullToAbsent(row.note), MapPlace(p)))
  }

  /** mapProfile */
  function MapProfile(row: ProfileRow): (u: User)
    ensures ProfileRowOf(u) == row
    ensures u.bio.None? <==> row.bio.Null?
  {
    User(row.id, row.username, row.displayName, row.avatarUrl, NullToAbsent(row.bio))
  }

  // ---------------------------------------------------------------------------
  // Properties of the media of a mapped post

  /** The view model's own sort orders ascend (the property PostMediaSorted states). */
  ghost predicate MediaSorted(items: seq<MediaItem>)
  {
    forall i, j :: 0 <= i < j < |items| ==> items[i].sortOrder <= items[j].sortOrder
  }

  /** The ids of media rows, in order. */
  function RowIds(rows: seq<MediaRow>): (ids: seq<string>)
    ensures |ids| == |rows|
  {
    seq(|rows|, i requires 0 <= i < |rows| => rows[i].id)
  }

  /** The ids of mapped media items: those of the rows they map back to. */
  function MediaIds(items: seq<MediaItem>): (ids: seq<string>)
    ensures |ids| == |items|
    ensures forall i :: 0 <= i < |items| ==> ids[i] == items[i].id
  {
    RowIds(MediaRowsOf(items))
  }

  /** The rows mapped media items come from (the inverse of MapMediaItems). */
  function MediaRowsOf(items: seq<MediaItem>): (rows: seq<MediaRow>)
    ensures |rows| == |items|
  {
    seq(|items|, i requires 0 <= i < |items| => MediaRowOf(items[i]))
  }

  /** Mapping the media back to rows gives back exactly the sorted rows. */
  lemma MediaRowsOfMapped(rows: seq<MediaRow>)
    ensures MediaRowsOf(MapMediaItems(rows)) == rows
  {
  }

  /** Appending a row appends its id; a step of InsertIds and SortIds. */
  lemma RowIdsSnoc(u: seq<MediaRow>, l: MediaRow)
    ensures RowIds(u + [l]) == RowIds(u) + [l.id]
  {
  }

  /** Inserting a row adds its id to the ids; a step of SortIds. */
  lemma {:induction false} InsertIds(t: seq<MediaRow>, x: MediaRow)
    ensures multiset(RowIds(StableSort.Insert(t, x, SortOrderOf))) == multiset(RowIds(t)) + multiset{x.id}
    decreases |t|
  {
    if t == [] || SortOrderOf(t[|t| - 1]) <= SortOrderOf(x) {
      RowIdsSnoc(t, x);
    } else {
      var init, last := t[..|t| - 1], t[|t| - 1];
      InsertIds(init, x);
      RowIdsSnoc(StableSort.Insert(init, x, SortOrderOf), last);
      assert t == init + [last];
      RowIdsSnoc(init, last);
    }
  }

  /** Sorting the rows rearranges their ids. */
  lemma {:induction false} SortIds(s: seq<MediaRow>)
    ensures multiset(RowIds(StableSort.Sort(s, SortOrderOf))) == multiset(RowIds(s))
    decreases |s|
  {
    if s != [] {
      var init, last := s[..|s| - 1], s[|s| - 1];
      SortIds(init);
      InsertIds(StableSort.Sort(init, SortOrderOf), last);
      assert s == init + [last];
      RowIdsSnoc(init, last);
    }
  }

  /** mapPost's media, when present, ascend by sort order whatever the input order. */
  lemma PostMediaSorted(row: PostRow, rows: seq<MediaRow>)
    ensures var p := PostOf(row, StableSort.Sort(rows, SortOrderOf));
      p.media.Some? ==> MediaSorted(p.media.value)
  {
    StableSort.SortSorted(rows, SortOrderOf);
  }

  /** mapPost's media is a permutation of the input rows, each mapped by mapMediaItem;
      in particular the ids are the input ids, rearranged. */
  lemma PostMediaPermutation(row: PostRow, rows: seq<MediaRow>)
    requires rows != []
    ensures var p := PostOf(row, StableSort.Sort(rows, SortOrderOf));
      && p.media.Some?
      && |p.media.value| == |rows|
      && multiset(MediaRowsOf(p.media.value)) == multiset(rows)
      && multiset(MediaIds(p.media.value)) == multiset(RowIds(rows))
  {
    var sorted := StableSort.Sort(rows, SortOrderOf);
    StableSort.SortPermutation(rows, SortOrderOf);
    assert |sorted| == |rows| by {
      assert |multiset(sorted)| == |multiset(rows)|;
    }
    assert sorted != [];
    MediaRowsOfMapped(sorted);
    SortIds(rows);
    assert MediaIds(MapMediaItems(sorted)) == RowIds(sorted);
  }

  /** Media rows with equal sort orders keep their input order (the sort is stable). */
  lemma PostMediaStable(row: PostRow, rows: seq<MediaRow>, k: int)
    requires rows != []
    ensures var p := PostOf(row, StableSort.Sort(rows, SortOrderOf));
      p.media.Some? &&
      StableSort.WithKey(MediaRowsOf(p.media.value), SortOrderOf, k) == StableSort.WithKey(rows, SortOrderOf, k)
  {
    var sorted := StableSort.Sort(rows, SortOrderOf);
    StableSort.SortPermutation(rows, SortOrderOf);
    assert |multiset(sorted)| == |multiset(rows)|;
    StableSort.SortStable(rows, SortOrderOf, k);
    MediaRowsOfMapped(sorted);
  }

  /** media is absent, never an empty list, exactly when post_media is missing or empty. */
  lemma PostMediaAbsent(row: PostRow, rows: seq<MediaRow>)
    ensures PostOf(row, StableSort.Sort(rows, SortOrderOf)).media.None? <==> rows == []
  {
    StableSort.SortPermutation(rows, SortOrderOf);
    if rows != [] {
      assert rows[0] in multiset(StableSort.Sort(rows, SortOrderOf));
    }
  }

  /** Two media rows given out of order come out in sort order, as in
      src/lib/__tests__/mappers.test.ts ("m2" with order 2 before "m1" with order 1). */
  lemma PostMediaTwoRowsReordered(row: PostRow, m2: MediaRow, m1: MediaRow)
    requires m1.sortOrder < m2.sortOrder
    ensures PostOf(row, StableSort.Sort([m2, m1], SortOrderOf)).media == Some([MapMediaItem(m1), MapMediaItem(m2)])
  {
    assert [m2, m1][..1] == [m2];
    assert StableSort.Sort([m2], SortOrderOf) == [m2] by {
      assert [m2][..0] == [];
    }
    assert StableSort.Insert([m2], m1, SortOrderOf) == [m1, m2] by {
      assert [m2][..0] == [];
    }
    var sorted := StableSort.Sort([m2, m1], SortOrderOf);
    assert sorted == [m1, m2];
    assert MapMediaItems(sorted) == [MapMediaItem(m1), MapMediaItem(m2)];
  }
}
