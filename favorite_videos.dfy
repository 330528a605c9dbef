/**
 * The video-bookmark collection (the `useFavoriteVideos` hook): the same shape
 * as the segment collection, except that `add` keeps at most one record per
 * `videoId` and hands back the existing record instead of adding a second.
 */
module FavoriteVideos {
  import opened Base
  import opened Lists
  import opened Storage
  import opened Types

  const FAVORITE_VIDEOS_STORAGE_KEY: string := "youtube-player-favorite-videos"

  /** A record as its JSON text holds it: the creation date is an ISO string. */
  datatype StoredVideo = StoredVideo(
    id: string,
    videoId: string,
    title: string,
    originalTitle: string,
    thumbnailUrl: string,
    createdAt: string)

  function Serialize(xs: seq<FavoriteVideo>, dates: DateCodec): (r: seq<StoredVideo>)
    ensures |r| == |xs|
    ensures forall i :: 0 <= i < |xs| ==>
      r[i].id == xs[i].id && r[i].videoId == xs[i].videoId && r[i].title == xs[i].title
      && r[i].originalTitle == xs[i].originalTitle && r[i].thumbnailUrl == xs[i].thumbnailUrl
      && r[i].createdAt == dates.toIso(xs[i].createdAt)
  {
    seq(|xs|, i requires 0 <= i < |xs| =>
      StoredVideo(xs[i].id, xs[i].videoId, xs[i].title, xs[i].originalTitle, xs[i].thumbnailUrl,
                  dates.toIso(xs[i].createdAt)))
  }

  /** `parsed.map(video => ({...video, createdAt: new Date(video.createdAt)}))`. */
  function Revive(rs: seq<StoredVideo>, dates: DateCodec): (r: seq<FavoriteVideo>)
    ensures |r| == |rs|
  {
    seq(|rs|, i requires 0 <= i < |rs| =>
      FavoriteVideo(rs[i].id, rs[i].videoId, rs[i].title, rs[i].originalTitle, rs[i].thumbnailUrl,
                    dates.dateOf(rs[i].createdAt)))
  }

  /** The list the load effect installs, or `None` when it leaves the list as it was. */
  function Loaded(stored: Option<string>, codec: ListCodec<StoredVideo>, dates: DateCodec)
    : (r: Option<seq<FavoriteVideo>>)
    ensures r.None? <==> stored.None? || stored.value == "" || codec.parse(stored.value).None?
    ensures r.Some? ==> var rs := codec.parse(stored.value).value;
      |r.value| == |rs| &&
      forall i :: 0 <= i < |rs| ==>
        && r.value[i].id == rs[i].id && r.value[i].videoId == rs[i].videoId
        && r.value[i].title == rs[i].title && r.value[i].originalTitle == rs[i].originalTitle
        && r.value[i].thumbnailUrl == rs[i].thumbnailUrl
        && r.value[i].createdAt == dates.dateOf(rs[i].createdAt)
  {
    if stored.None? || stored.value == "" then None
    else match codec.parse(stored.value)
      case None => None
      case Some(rs) => Some(Revive(rs, dates))
  }

  /** Saving and loading again gives back every record, dates included. */
  lemma LoadAfterSave(xs: seq<FavoriteVideo>, codec: ListCodec<StoredVideo>, dates: DateCodec)
    requires codec.RoundTrips() && dates.RoundTrips()
    ensures Loaded(Some(codec.stringify(Serialize(xs, dates))), codec, dates) == Some(xs)
  {
    var rs := Serialize(xs, dates);
    assert codec.parse(codec.stringify(rs)) == Some(rs) && codec.stringify(rs) != "";
    var back := Revive(rs, dates);
    assert Loaded(Some(codec.stringify(rs)), codec, dates) == Some(back);
    forall i | 0 <= i < |xs|
      ensures back[i] == xs[i]
    {
      assert dates.dateOf(dates.toIso(xs[i].createdAt)) == xs[i].createdAt;
    }
    assert back == xs;
  }

  function VideoKey(v: FavoriteVideo): string {
    v.videoId
  }

  function IsVideo(videoId: string): FavoriteVideo -> bool {
    (v: FavoriteVideo) => v.videoId == videoId
  }

  /** `favoriteVideos.find(video => video.videoId === videoId)`. */
  function FindByVideoId(xs: seq<FavoriteVideo>, videoId: string): (r: Option<FavoriteVideo>)
    ensures r.None? <==> forall i :: 0 <= i < |xs| ==> xs[i].videoId != videoId
    ensures r.Some? ==> exists i :: 0 <= i < |xs| && xs[i] == r.value && xs[i].videoId == videoId
                                   && forall j :: 0 <= j < i ==> xs[j].videoId != videoId
  {
    Find(xs, IsVideo(videoId))
  }

  /** `favoriteVideos.some(video => video.videoId === videoId)`. */
  function IsFavorite(xs: seq<FavoriteVideo>, videoId: string): bool {
    Any(xs, IsVideo(videoId))
  }

  /** `isFavoriteVideo(v)` holds exactly when `getFavoriteVideoByVideoId(v)` finds a record. */
  lemma IsFavoriteIffFound(xs: seq<FavoriteVideo>, videoId: string)
    ensures IsFavorite(xs, videoId) <==> FindByVideoId(xs, videoId).Some?
  {
    AnyIffFound(xs, IsVideo(videoId));
  }

  /** The record `addFavoriteVideo` builds. */
  function NewVideo(id: string, video: CreateFavoriteVideo, createdAt: Timestamp): FavoriteVideo {
    FavoriteVideo(id, video.videoId, video.title, video.originalTitle, video.thumbnailUrl, createdAt)
  }

  /** The list after an add whose write succeeds, and the record the add returns. */
  datatype AddOutcome = AddOutcome(videos: seq<FavoriteVideo>, returned: FavoriteVideo)

  function AddVideo(xs: seq<FavoriteVideo>, video: CreateFavoriteVideo, id: string, createdAt: Timestamp)
    : AddOutcome
  {
    match FindByVideoId(xs, video.videoId)
    case Some(existing) => AddOutcome(xs, existing)
    case None =>
      var v := NewVideo(id, video, createdAt);
      AddOutcome(xs + [v], v)
  }

  /**
   * When a record for the video exists, the add returns the first such record
   * and leaves the list alone; otherwise it appends one new record carrying the
   * input's fields and returns it.
   */
  lemma AddVideoSpec(xs: seq<FavoriteVideo>, video: CreateFavoriteVideo, id: string, createdAt: Timestamp)
    ensures var r := AddVideo(xs, video, id, createdAt);
      if exists i :: 0 <= i < |xs| && xs[i].videoId == video.videoId then
        r.videos == xs && r.returned == FindByVideoId(xs, video.videoId).value
        && r.returned.videoId == video.videoId
      else
        r.videos == xs + [r.returned]
        && r.returned == FavoriteVideo(id, video.videoId, video.title, video.originalTitle,
                                       video.thumbnailUrl, createdAt)
  {
  }

  /** At most one record per video. */
  ghost predicate OnePerVideo(xs: seq<FavoriteVideo>) {
    DistinctBy(xs, VideoKey)
  }

  /** The add keeps at most one record per video, and so does a remove. */
  lemma OperationsKeepOnePerVideo(xs: seq<FavoriteVideo>, video: CreateFavoriteVideo, id: string,
                                  createdAt: Timestamp)
    requires OnePerVideo(xs)
    ensures OnePerVideo(AddVideo(xs, video, id, createdAt).videos)
    ensures OnePerVideo(RemoveById(xs, id))
  {
    FilterKeepsDistinct(xs, HasOtherId(id), VideoKey);
    if FindByVideoId(xs, video.videoId).None? {
      var ys := xs + [NewVideo(id, video, createdAt)];
      forall i, j | 0 <= i < j < |ys|
        ensures VideoKey(ys[i]) != VideoKey(ys[j])
      {
        if j == |xs| {
          assert ys[i] == xs[i];
        }
      }
    }
  }

  /**
   * Adding the same video twice leaves one record: the second add returns the
   * record the first one returned and does not change the list.
   */
  lemma AddTwiceIsIdempotent(xs: seq<FavoriteVideo>, video: CreateFavoriteVideo, again: CreateFavoriteVideo,
                             id1: string, t1: Timestamp, id2: string, t2: Timestamp)
    requires again.videoId == video.videoId
    ensures var first := AddVideo(xs, video, id1, t1);
      var second := AddVideo(first.videos, again, id2, t2);
      second.videos == first.videos && second.returned == first.returned
  {
    var first := AddVideo(xs, video, id1, t1);
    if FindByVideoId(xs, video.videoId).None? {
      var v := NewVideo(id1, video, t1);
      FindAfterMiss(xs, [v], IsVideo(video.videoId));
      assert Find([v], IsVideo(video.videoId)) == Some(v);
    }
  }

  function HasOtherId(id: string): FavoriteVideo -> bool {
    (v: FavoriteVideo) => v.id != id
  }

  /** `favoriteVideos.filter(video => video.id !== id)`. */
  function RemoveById(xs: seq<FavoriteVideo>, id: string): seq<FavoriteVideo> {
    Filter(xs, HasOtherId(id))
  }

  /** Removing an id drops exactly the records with that id and keeps the rest in order. */
  lemma RemoveByIdSpec(xs: seq<FavoriteVideo>, id: string)
    ensures forall v :: v in RemoveById(xs, id) ==> v.id != id
    ensures SubseqOf(RemoveById(xs, id), xs)
    ensures forall v :: multiset(RemoveById(xs, id))[v] == if v.id != id then multiset(xs)[v] else 0
  {
    FilterIsOrderedSelection(xs, HasOtherId(id));
  }

  /** Removing an id that no record has leaves the list equal. */
  lemma RemoveAbsentIsNoop(xs: seq<FavoriteVideo>, id: string)
    requires forall i :: 0 <= i < |xs| ==> xs[i].id != id
    ensures RemoveById(xs, id) == xs
  {
    FilterKeepsAll(xs, HasOtherId(id));
  }

  /** The hook: `favoriteVideos` is its React state, written back whole to `storage`. */
  class FavoriteVideosHook {
    var favoriteVideos: seq<FavoriteVideo>
    const storage: LocalStorage
    const codec: ListCodec<StoredVideo>
    const dates: DateCodec

    /** The text a save writes for `xs`. */
    function Written(xs: seq<FavoriteVideo>): string {
      codec.stringify(Serialize(xs, dates))
    }

    constructor (storage: LocalStorage, codec: ListCodec<StoredVideo>, dates: DateCodec)
      ensures favoriteVideos == []
      ensures this.storage == storage && this.codec == codec && this.dates == dates
    {
      favoriteVideos := [];
      this.storage := storage;
      this.codec := codec;
      this.dates := dates;
    }

    /** The mount effect: install the stored list, if there is one that parses. */
    method Load()
      modifies this
      ensures favoriteVideos
           == Loaded(Lookup(storage.items, FAVORITE_VIDEOS_STORAGE_KEY), codec, dates).GetOr(old(favoriteVideos))
    {
      var stored := storage.GetItem(FAVORITE_VIDEOS_STORAGE_KEY);
      if stored.Some? && stored.value != "" {
        var parsed := codec.parse(stored.value);
        if parsed.Some? {
          favoriteVideos := Revive(parsed.value, dates);
        }
      }
    }

    /** `saveFavoriteVideos`: the state is replaced only after the write succeeded. */
    method SaveFavoriteVideos(newVideos: seq<FavoriteVideo>, fits: bool)
      modifies this, storage
      ensures storage.items == if fits then old(storage.items)[FAVORITE_VIDEOS_STORAGE_KEY := Written(newVideos)]
                               else old(storage.items)
      ensures favoriteVideos == if fits then newVideos else old(favoriteVideos)
    {
      var ok := storage.SetItem(FAVORITE_VIDEOS_STORAGE_KEY, Written(newVideos), fits);
      if ok {
        favoriteVideos := newVideos;
      }
    }

    /**
     * `addFavoriteVideo`: an existing record for the video is returned with no
     * write; otherwise the new record is returned whether or not its write
     * succeeded, and the list grows only if it did.
     */
    method AddFavoriteVideo(video: CreateFavoriteVideo, id: string, createdAt: Timestamp, fits: bool)
      returns (r: FavoriteVideo)
      modifies this, storage
      ensures var outcome := AddVideo(old(favoriteVideos), video, id, createdAt);
        && r == outcome.returned
        && favoriteVideos == (if fits then outcome.videos else old(favoriteVideos))
      ensures FindByVideoId(old(favoriteVideos), video.videoId).Some? ==> unchanged(storage)
      ensures FindByVideoId(old(favoriteVideos), video.videoId).None? ==>
        storage.items == if fits then old(storage.items)[FAVORITE_VIDEOS_STORAGE_KEY := Written(favoriteVideos)]
                         else old(storage.items)
    {
      var existingVideo := FindByVideoId(favoriteVideos, video.videoId);
      if existingVideo.Some? {
        return existingVideo.value;
      }
      r := NewVideo(id, video, createdAt);
      SaveFavoriteVideos(favoriteVideos + [r], fits);
    }

    /** `removeFavoriteVideo`. */
    method RemoveFavoriteVideo(id: string, fits: bool)
      modifies this, storage
      ensures favoriteVideos == if fits then RemoveById(old(favoriteVideos), id) else old(favoriteVideos)
      ensures storage.items == if fits then old(storage.items)[FAVORITE_VIDEOS_STORAGE_KEY := Written(favoriteVideos)]
                               else old(storage.items)
    {
      SaveFavoriteVideos(RemoveById(favoriteVideos, id), fits);
    }

    /** `getFavoriteVideoByVideoId`. */
    method GetFavoriteVideoByVideoId(videoId: string) returns (r: Option<FavoriteVideo>)
      ensures r == FindByVideoId(favoriteVideos, videoId)
    {
      r := FindByVideoId(favoriteVideos, videoId);
    }

    /** `isFavoriteVideo`. */
    method IsFavoriteVideo(videoId: string) returns (r: bool)
      ensures r <==> exists i :: 0 <= i < |favoriteVideos| && favoriteVideos[i].videoId == videoId
    {
      r := IsFavorite(favoriteVideos, videoId);
    }
  }
}
