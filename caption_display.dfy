/**
 * The caption panel (`CaptionDisplay`): it looks up the current caption with
 * the same first-match search as the caption hook, and highlights every
 * listed caption whose text equals the current caption's text.
 */
module CaptionDisplay {
  import opened Base
  import opened Captions

  /** `currentCaption?.text === caption.text`: no current caption highlights nothing. */
  predicate IsHighlighted(current: Option<Caption>, c: Caption) {
    current.Some? && current.value.text == c.text
  }

  /** The highlight flag of every row of the caption list, in list order. */
  function Highlights(captions: seq<Caption>, currentTime: real): (r: seq<bool>)
    ensures |r| == |captions|
    ensures forall k :: 0 <= k < |r| ==>
      (r[k] <==> exists i :: 0 <= i < |captions| && Covers(captions[i], currentTime)
                            && (forall j :: 0 <= j < i ==> !Covers(captions[j], currentTime))
                            && captions[i].text == captions[k].text)
  {
    var current := CurrentCaption(captions, currentTime);
    seq(|captions|, k requires 0 <= k < |captions| => IsHighlighted(current, captions[k]))
  }

  /** Rows with the same text are highlighted together. */
  lemma EqualTextsHighlightTogether(captions: seq<Caption>, currentTime: real, k: nat, l: nat)
    requires k < |captions| && l < |captions| && captions[k].text == captions[l].text
    ensures Highlights(captions, currentTime)[k] == Highlights(captions, currentTime)[l]
  {
  }

  /** Nothing is highlighted exactly when no caption holds the current time. */
  lemma NoneHighlightedIffNoCaption(captions: seq<Caption>, currentTime: real)
    ensures (forall k :: 0 <= k < |captions| ==> !Highlights(captions, currentTime)[k])
        <==> CurrentCaption(captions, currentTime).None?
  {
    var current := CurrentCaption(captions, currentTime);
    if current.Some? {
      var i :| 0 <= i < |captions| && captions[i] == current.value && Covers(current.value, currentTime);
      assert Highlights(captions, currentTime)[i];
    }
  }

  /**
   * A row whose own interval does not hold the current time is still
   * highlighted when it repeats the current caption's text.
   */
  lemma RepeatedTextIsHighlighted()
    ensures var captions := [Caption(0.0, 1.0, "a"), Caption(5.0, 1.0, "a")];
      Highlights(captions, 0.5) == [true, true] && !Covers(captions[1], 0.5)
  {
    var captions := [Caption(0.0, 1.0, "a"), Caption(5.0, 1.0, "a")];
    assert CurrentCaption(captions, 0.5) == Some(captions[0]);
  }
}
