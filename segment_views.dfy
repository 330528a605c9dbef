/**
 * The list helpers of the two segment components (`FavoriteSegmentForm` and
 * `FavoriteSegmentList`): `formatTime`, the order of the list, the label of a
 * row, the quick-register record and the name editor. Both components define
 * `formatTime`, the order and the name editor identically; their labels
 * differ, and only the form has the quick-register button.
 */
module SegmentViews {
  import opened Base
  import opened Lists
  import opened Text
  import opened Types
  import FavoriteSegments

  // ---------------------------------------------------------------------------
  // formatTime

  /** JavaScript's `a % 60`: the remainder takes the sign of the dividend. */
  function JsRemainder60(a: int): (r: int)
    ensures -60 < r < 60
    ensures a >= 0 ==> r >= 0
    ensures a <= 0 ==> r <= 0
    ensures (a - r) % 60 == 0
  {
    if a >= 0 then a % 60 else -((-a) % 60)
  }

  /**
   * `formatTime(seconds)` on whole seconds: `Math.floor(seconds / 60)`, a
   * colon, and `Math.floor(seconds % 60)` padded to two places with `0`.
   */
  function FormatTime(seconds: int): string {
    IntToString(seconds / 60) + ":" + PadStart(IntToString(JsRemainder60(seconds)), 2, '0')
  }

  /** The two-place rendering of a number of seconds below 60 reads back as that number. */
  lemma {:induction false} TwoPlaces(n: nat)
    requires n < 60
    ensures var p := PadStart(NatToString(n), 2, '0');
      |p| == 2 && AllDigits(p) && ParseNat(p) == n
  {
    ParseNatToString(n);
    var s := NatToString(n);
    var p := PadStart(s, 2, '0');
    if n < 10 {
      assert s == [DigitChar(n)];
      assert p == ['0', DigitChar(n)];
      assert p[..1] == ['0'];
    } else {
      assert s == NatToString(n / 10) + [DigitChar(n % 10)];
      assert |NatToString(n / 10)| == 1;
      assert p == s;
    }
  }

  /**
   * For a non-negative number of seconds, `formatTime` gives `M:SS`: the
   * minutes without leading zeros, a colon, and exactly two digits of
   * seconds in 00..59, such that minutes · 60 + seconds is the input.
   */
  lemma FormatTimeReadsBack(seconds: int)
    requires seconds >= 0
    ensures var r := FormatTime(seconds); var n := |r|;
      n >= 4 && r[n - 3] == ':'
      && AllDigits(r[..n - 3]) && (n - 3 > 1 ==> r[0] != '0')
      && AllDigits(r[n - 2..]) && ParseNat(r[n - 2..]) < 60
      && ParseNat(r[..n - 3]) * 60 + ParseNat(r[n - 2..]) == seconds
  {
    var m := NatToString(seconds / 60);
    var p := PadStart(NatToString(seconds % 60), 2, '0');
    TwoPlaces(seconds % 60);
    ParseNatToString(seconds / 60);
    var r := FormatTime(seconds);
    assert JsRemainder60(seconds) == seconds % 60;
    assert IntToString(seconds / 60) == m && IntToString(seconds % 60) == NatToString(seconds % 60);
    assert r == m + ":" + p;
    assert r[..|r| - 3] == m;
    assert r[|r| - 2..] == p;
  }

  // ---------------------------------------------------------------------------
  // Labels

  /** The row label of the form: the name, or else the start time. */
  function FormLabel(f: FavoriteSegment): (r: string)
    ensures r != []
    ensures f.name != [] ==> r == f.name
  {
    if f.name != [] then f.name else FormatTime(f.startTime)
  }

  /** The row label of the list: the name, or else `区間 ` and the start time. */
  function ListLabel(f: FavoriteSegment): (r: string)
    ensures r != []
    ensures f.name != [] ==> r == f.name
  {
    if f.name != [] then f.name else "区間 " + FormatTime(f.startTime)
  }

  /** An unnamed segment's label shows its start time, after `区間 ` in the list. */
  lemma UnnamedLabelsShowStartTime(f: FavoriteSegment)
    requires f.name == []
    ensures FormLabel(f) == FormatTime(f.startTime)
    ensures ListLabel(f)[..3] == "区間 " && ListLabel(f)[3..] == FormLabel(f)
  {
  }

  // ---------------------------------------------------------------------------
  // Order and quick register

  function StartTimeOf(f: FavoriteSegment): int {
    f.startTime
  }

  /** `[...favorites].sort((a, b) => a.startTime - b.startTime)`, a stable sort. */
  function SortedFavorites(favorites: seq<FavoriteSegment>): seq<FavoriteSegment> {
    SortBy(favorites, StartTimeOf)
  }

  /**
   * The sorted list is a permutation of the favorites in non-decreasing order
   * of start time, and segments with the same start time keep their order.
   */
  lemma SortedFavoritesSpec(favorites: seq<FavoriteSegment>)
    ensures var r := SortedFavorites(favorites);
      (forall i, j :: 0 <= i < j < |r| ==> r[i].startTime <= r[j].startTime)
      && multiset(r) == multiset(favorites)
      && forall t :: Filter(r, KeyIs(StartTimeOf, t)) == Filter(favorites, KeyIs(StartTimeOf, t))
  {
    SortBySpec(favorites, StartTimeOf);
  }

  /** `handleQuickRegister`: an unnamed segment at the whole second the player is at. */
  function QuickRegister(currentTime: real, videoId: string): (r: CreateFavoriteSegment)
    ensures r.name == [] && r.videoId == videoId
    ensures r.startTime as real <= currentTime < r.startTime as real + 1.0
  {
    CreateFavoriteSegment("", currentTime.Floor, videoId)
  }

  // ---------------------------------------------------------------------------
  // The name editor

  /** A call of `onUpdateSegment(id, updates)`. */
  datatype UpdateRequest = UpdateRequest(id: string, updates: SegmentUpdate)

  /** `if (editingId)`: `null` and the empty string are both falsy. */
  predicate Editing(editingId: Option<string>) {
    editingId.Some? && editingId.value != []
  }

  /** The update `saveEditing` sends: the trimmed name for the segment being edited. */
  function SaveRequest(editingId: Option<string>, editingName: string): (r: Option<UpdateRequest>)
    ensures r.Some? <==> Editing(editingId)
    ensures r.Some? ==>
      r.value.id == editingId.value && r.value.updates == SegmentUpdate(Some(Trim(editingName)), None, None)
  {
    if Editing(editingId) then Some(UpdateRequest(editingId.value, SegmentUpdate(Some(Trim(editingName)), None, None)))
    else None
  }

  /**
   * Saving renames exactly the segments with the edited id to the trimmed
   * name, keeping their start time, video, id and creation time; every other
   * segment stays as it was.
   */
  lemma SaveRenamesOnly(favorites: seq<FavoriteSegment>, editingId: Option<string>, editingName: string)
    requires Editing(editingId)
    ensures var req := SaveRequest(editingId, editingName).value;
      var r := FavoriteSegments.UpdateById(favorites, req.id, req.updates);
      |r| == |favorites|
      && forall i :: 0 <= i < |r| ==>
           if favorites[i].id == editingId.value
           then r[i] == favorites[i].(name := Trim(editingName))
           else r[i] == favorites[i]
  {
  }

  /** The edit state of one component: `editingId` and `editingName`. */
  class SegmentEditor {
    var editingId: Option<string>
    var editingName: string

    constructor ()
      ensures editingId == None && editingName == ""
    {
      editingId := None;
      editingName := "";
    }

    /** `startEditing(favorite)`. */
    method StartEditing(favorite: FavoriteSegment)
      modifies this
      ensures editingId == Some(favorite.id) && editingName == favorite.name
    {
      editingId := Some(favorite.id);
      editingName := favorite.name;
    }

    /** The input's `onChange`. */
    method ChangeName(value: string)
      modifies this
      ensures editingId == old(editingId) && editingName == value
    {
      editingName := value;
    }

    /**
     * `saveEditing`: only while editing, send the trimmed name and clear the
     * edit state; otherwise send nothing and change nothing.
     */
    method SaveEditing() returns (request: Option<UpdateRequest>)
      modifies this
      ensures request == SaveRequest(old(editingId), old(editingName))
      ensures if request.Some? then editingId == None && editingName == ""
              else editingId == old(editingId) && editingName == old(editingName)
    {
      request := None;
      if editingId.Some? && editingId.value != [] {
        request := Some(UpdateRequest(editingId.value, SegmentUpdate(Some(Trim(editingName)), None, None)));
        editingId := None;
        editingName := "";
      }
    }

    /** `cancelEditing`: clear the edit state without sending anything. */
    method CancelEditing()
      modifies this
      ensures editingId == None && editingName == ""
    {
      editingId := None;
      editingName := "";
    }

    /** `handleKeyPress`: Enter saves, Escape cancels, any other key does nothing. */
    method HandleKeyPress(key: string) returns (request: Option<UpdateRequest>)
      modifies this
      ensures key == "Enter" ==> request == SaveRequest(old(editingId), old(editingName))
                                 && (request.Some? ==> editingId == None && editingName == "")
                                 && (request.None? ==> editingId == old(editingId) && editingName == old(editingName))
      ensures key == "Escape" ==> request == None && editingId == None && editingName == ""
      ensures key != "Enter" && key != "Escape" ==>
        request == None && editingId == old(editingId) && editingName == old(editingName)
    {
      request := None;
      if key == "Enter" {
        request := SaveEditing();
      } else if key == "Escape" {
        CancelEditing();
      }
    }
  }
}
