/** The bookmark records and the inputs that create them. */
module Types {
  import opened Base
  import opened Storage

  /** A named start time within one video. */
  datatype FavoriteSegment = FavoriteSegment(
    id: string,
    name: string,
    startTime: int,
    videoId: string,
    createdAt: Timestamp)

  /** What `addFavorite` is given. */
  datatype CreateFavoriteSegment = CreateFavoriteSegment(name: string, startTime: int, videoId: string)

  /** `Partial<CreateFavoriteSegment>`: the fields an update supplies. */
  datatype SegmentUpdate = SegmentUpdate(name: Option<string>, startTime: Option<int>, videoId: Option<string>)

  /** A whole-video bookmark. */
  datatype FavoriteVideo = FavoriteVideo(
    id: string,
    videoId: string,
    title: string,
    originalTitle: string,
    thumbnailUrl: string,
    createdAt: Timestamp)

  /** What `addFavoriteVideo` is given. */
  datatype CreateFavoriteVideo = CreateFavoriteVideo(
    videoId: string,
    title: string,
    originalTitle: string,
    thumbnailUrl: string)
}
