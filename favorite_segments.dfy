/**
 * The segment-bookmark collection (the `useFavoriteSegments` hook): an
 * insertion-ordered list of `FavoriteSegment` records, written back whole to
 * `localStorage` after every change. The list operations are functions; the
 * hook is a class whose list field changes only when the write succeeds.
 */
module FavoriteSegments {
  import opened Base
  import opened Lists
  import opened Storage
  import opened Types

  const FAVORITES_STORAGE_KEY: string := "youtube-player-favorites"

  /** A record as its JSON text holds it: the creation date is an ISO string. */
  datatype StoredSegment = StoredSegment(
    id: string,
    name: string,
    startTime: int,
    videoId: string,
    createdAt: string)

  /** The array `JSON.stringify` is given: each date becomes its ISO text. */
  function Serialize(xs: seq<FavoriteSegment>, dates: DateCodec): (r: seq<StoredSegment>)
    ensures |r| == |xs|
    ensures forall i :: 0 <= i < |xs| ==>
      r[i].id == xs[i].id && r[i].name == xs[i].name && r[i].startTime == xs[i].startTime
      && r[i].videoId == xs[i].videoId && r[i].createdAt == dates.toIso(xs[i].createdAt)
  {
    seq(|xs|, i requires 0 <= i < |xs| =>
      StoredSegment(xs[i].id, xs[i].name, xs[i].startTime, xs[i].videoId, dates.toIso(xs[i].createdAt)))
  }

  /** `parsed.map(fav => ({...fav, createdAt: new Date(fav.createdAt)}))`. */
  function Revive(rs: seq<StoredSegment>, dates: DateCodec): (r: seq<FavoriteSegment>)
    ensures |r| == |rs|
  {
    seq(|rs|, i requires 0 <= i < |rs| =>
      FavoriteSegment(rs[i].id, rs[i].name, rs[i].startTime, rs[i].videoId, dates.dateOf(rs[i].createdAt)))
  }

  /**
   * The list the load effect installs, given what `getItem` returned; `None`
   * when it installs nothing (no text, empty text, or text that does not parse
   * as an array of records), so the list stays as it was.
   */
  function Loaded(stored: Option<string>, codec: ListCodec<StoredSegment>, dates: DateCodec)
    : (r: Option<seq<FavoriteSegment>>)
    ensures r.None? <==> stored.None? || stored.value == "" || codec.parse(stored.value).None?
    ensures r.Some? ==> var rs := codec.parse(stored.value).value;
      |r.value| == |rs| &&
      forall i :: 0 <= i < |rs| ==>
        && r.value[i].id == rs[i].id && r.value[i].name == rs[i].name
        && r.value[i].startTime == rs[i].startTime && r.value[i].videoId == rs[i].videoId
        && r.value[i].createdAt == dates.dateOf(rs[i].createdAt)
  {
    if stored.None? || stored.value == "" then None
    else match codec.parse(stored.value)
      case None => None
      case Some(rs) => Some(Revive(rs, dates))
  }

  /**
   * Saving a list and loading it again gives back every record, dates
   * included, provided JSON and the date text round-trip.
   */
  lemma LoadAfterSave(xs: seq<FavoriteSegment>, codec: ListCodec<StoredSegment>, dates: DateCodec)
    requires codec.RoundTrips() && dates.RoundTrips()
    ensures Loaded(Some(codec.stringify(Serialize(xs, dates))), codec, dates) == Some(xs)
  {
    var rs := Serialize(xs, dates);
    assert codec.parse(codec.stringify(rs)) == Some(rs) && codec.stringify(rs) != "";
    var back := Revive(rs, dates);
    assert Loaded(Some(codec.stringify(rs)), codec, dates) == Some(back);
    forall i | 0 <= i < |xs|
      ensures back[i] == xs[i]
    {
      assert dates.dateOf(dates.toIso(xs[i].createdAt)) == xs[i].createdAt;
    }
    assert back == xs;
  }

  /** The record `addFavorite` builds: fresh id and date, the rest from the input. */
  function NewFavorite(id: string, segment: CreateFavoriteSegment, createdAt: Timestamp): FavoriteSegment {
    FavoriteSegment(id, segment.name, segment.startTime, segment.videoId, createdAt)
  }

  function SegmentId(f: FavoriteSegment): string {
    f.id
  }

  function HasOtherId(id: string): FavoriteSegment -> bool {
    (f: FavoriteSegment) => f.id != id
  }

  /** `favorites.filter(fav => fav.id !== id)`. */
  function RemoveById(xs: seq<FavoriteSegment>, id: string): seq<FavoriteSegment> {
    Filter(xs, HasOtherId(id))
  }

  /**
   * Removing an id keeps, in their original order, exactly the records with
   * another id, each as often as before.
   */
  lemma RemoveByIdSpec(xs: seq<FavoriteSegment>, id: string)
    ensures forall f :: f in RemoveById(xs, id) ==> f.id != id
    ensures SubseqOf(RemoveById(xs, id), xs)
    ensures forall f :: multiset(RemoveById(xs, id))[f] == if f.id != id then multiset(xs)[f] else 0
  {
    FilterIsOrderedSelection(xs, HasOtherId(id));
  }

  /** Removing an id that no record has leaves the list equal. */
  lemma RemoveAbsentIsNoop(xs: seq<FavoriteSegment>, id: string)
    requires forall i :: 0 <= i < |xs| ==> xs[i].id != id
    ensures RemoveById(xs, id) == xs
  {
    FilterKeepsAll(xs, HasOtherId(id));
  }

  function OnVideo(videoId: string): FavoriteSegment -> bool {
    (f: FavoriteSegment) => f.videoId == videoId
  }

  /** `favorites.filter(fav => fav.videoId === videoId)`. */
  function ByVideoId(xs: seq<FavoriteSegment>, videoId: string): seq<FavoriteSegment> {
    Filter(xs, OnVideo(videoId))
  }

  /**
   * The lookup returns the records of that video, in collection order, each as
   * often as in the collection, and no other record.
   */
  lemma ByVideoIdSpec(xs: seq<FavoriteSegment>, videoId: string)
    ensures forall f :: f in ByVideoId(xs, videoId) ==> f.videoId == videoId
    ensures SubseqOf(ByVideoId(xs, videoId), xs)
    ensures forall f :: multiset(ByVideoId(xs, videoId))[f] == if f.videoId == videoId then multiset(xs)[f] else 0
  {
    FilterIsOrderedSelection(xs, OnVideo(videoId));
  }

  /** `{ ...fav, ...updates }`: the supplied fields override, id and date stay. */
  function ApplyUpdate(f: FavoriteSegment, u: SegmentUpdate): (r: FavoriteSegment)
    ensures r.id == f.id && r.createdAt == f.createdAt
    ensures r.name == (if u.name.Some? then u.name.value else f.name)
    ensures r.startTime == (if u.startTime.Some? then u.startTime.value else f.startTime)
    ensures r.videoId == (if u.videoId.Some? then u.videoId.value else f.videoId)
  {
    f.(name := u.name.GetOr(f.name), startTime := u.startTime.GetOr(f.startTime),
       videoId := u.videoId.GetOr(f.videoId))
  }

  /** `favorites.map(fav => fav.id === id ? { ...fav, ...updates } : fav)`. */
  function UpdateById(xs: seq<FavoriteSegment>, id: string, u: SegmentUpdate): (r: seq<FavoriteSegment>)
    ensures |r| == |xs|
    ensures forall i :: 0 <= i < |xs| ==> r[i].id == xs[i].id && r[i].createdAt == xs[i].createdAt
    ensures forall i :: 0 <= i < |xs| && xs[i].id != id ==> r[i] == xs[i]
    ensures forall i :: 0 <= i < |xs| && xs[i].id == id ==> r[i] == ApplyUpdate(xs[i], u)
  {
    seq(|xs|, i requires 0 <= i < |xs| => if xs[i].id == id then ApplyUpdate(xs[i], u) else xs[i])
  }

  /** An update naming an id that is not in the list changes nothing (it is not an error). */
  lemma UpdateAbsentIsNoop(xs: seq<FavoriteSegment>, id: string, u: SegmentUpdate)
    requires forall i :: 0 <= i < |xs| ==> xs[i].id != id
    ensures UpdateById(xs, id, u) == xs
  {
  }

  ghost predicate DistinctIds(xs: seq<FavoriteSegment>) {
    DistinctBy(xs, SegmentId)
  }

  /** Ids stay pairwise distinct through add (with a fresh id), remove and update. */
  lemma OperationsKeepIdsDistinct(xs: seq<FavoriteSegment>, f: FavoriteSegment, id: string, u: SegmentUpdate)
    requires DistinctIds(xs)
    ensures (forall g :: g in xs ==> g.id != f.id) ==> DistinctIds(xs + [f])
    ensures DistinctIds(RemoveById(xs, id))
    ensures DistinctIds(UpdateById(xs, id, u))
  {
    FilterKeepsDistinct(xs, HasOtherId(id), SegmentId);
    if forall g :: g in xs ==> g.id != f.id {
      var ys := xs + [f];
      forall i, j | 0 <= i < j < |ys|
        ensures SegmentId(ys[i]) != SegmentId(ys[j])
      {
        if j == |xs| {
          assert ys[i] in xs;
        }
      }
    }
  }

  /**
   * The hook. `favorites` is its React state; `storage` is the browser store
   * it writes to; `codec` and `dates` are JSON and `Date` conversion.
   */
  class FavoriteSegmentsHook {
    var favorites: seq<FavoriteSegment>
    const storage: LocalStorage
    const codec: ListCodec<StoredSegment>
    const dates: DateCodec

    /** The text a save writes for `xs`. */
    function Written(xs: seq<FavoriteSegment>): string {
      codec.stringify(Serialize(xs, dates))
    }

    constructor (storage: LocalStorage, codec: ListCodec<StoredSegment>, dates: DateCodec)
      ensures favorites == []
      ensures this.storage == storage && this.codec == codec && this.dates == dates
    {
      favorites := [];
      this.storage := storage;
      this.codec := codec;
      this.dates := dates;
    }

    /** The mount effect: install the stored list, if there is one that parses. */
    method Load()
      modifies this
      ensures favorites == Loaded(Lookup(storage.items, FAVORITES_STORAGE_KEY), codec, dates).GetOr(old(favorites))
    {
      var stored := storage.GetItem(FAVORITES_STORAGE_KEY);
      if stored.Some? && stored.value != "" {
        var parsed := codec.parse(stored.value);
        if parsed.Some? {
          favorites := Revive(parsed.value, dates);
        }
      }
    }

    /** `saveFavorites`: the state is replaced only after the write succeeded. */
    method SaveFavorites(newFavorites: seq<FavoriteSegment>, fits: bool)
      modifies this, storage
      ensures storage.items == if fits then old(storage.items)[FAVORITES_STORAGE_KEY := Written(newFavorites)]
                               else old(storage.items)
      ensures favorites == if fits then newFavorites else old(favorites)
    {
      var ok := storage.SetItem(FAVORITES_STORAGE_KEY, Written(newFavorites), fits);
      if ok {
        favorites := newFavorites;
      }
    }

    /**
     * `addFavorite`: one record is appended with the given id and date; the
     * record is returned whether or not the write succeeded.
     */
    method AddFavorite(segment: CreateFavoriteSegment, id: string, createdAt: Timestamp, fits: bool)
      returns (newFavorite: FavoriteSegment)
      modifies this, storage
      ensures newFavorite.id == id && newFavorite.createdAt == createdAt
      ensures newFavorite.name == segment.name && newFavorite.startTime == segment.startTime
      ensures newFavorite.videoId == segment.videoId
      ensures favorites == if fits then old(favorites) + [newFavorite] else old(favorites)
      ensures storage.items == if fits then old(storage.items)[FAVORITES_STORAGE_KEY := Written(favorites)]
                               else old(storage.items)
    {
      newFavorite := NewFavorite(id, segment, createdAt);
      SaveFavorites(favorites + [newFavorite], fits);
    }

    /** `removeFavorite`. */
    method RemoveFavorite(id: string, fits: bool)
      modifies this, storage
      ensures favorites == if fits then RemoveById(old(favorites), id) else old(favorites)
      ensures storage.items == if fits then old(storage.items)[FAVORITES_STORAGE_KEY := Written(favorites)]
                               else old(storage.items)
    {
      SaveFavorites(RemoveById(favorites, id), fits);
    }

    /** `updateFavorite`. */
    method UpdateFavorite(id: string, updates: SegmentUpdate, fits: bool)
      modifies this, storage
      ensures favorites == if fits then UpdateById(old(favorites), id, updates) else old(favorites)
      ensures storage.items == if fits then old(storage.items)[FAVORITES_STORAGE_KEY := Written(favorites)]
                               else old(storage.items)
    {
      SaveFavorites(UpdateById(favorites, id, updates), fits);
    }

    /** `getFavoritesByVideoId`. */
    method GetFavoritesByVideoId(videoId: string) returns (r: seq<FavoriteSegment>)
      ensures r == ByVideoId(favorites, videoId)
    {
      r := ByVideoId(favorites, videoId);
    }
  }
}
