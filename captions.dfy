/**
 * The caption cue parser (`parseVTT`) and the active-caption lookup
 * (`getCurrentCaption`) of `useCaptions`. The parser reads the cue-timing
 * lines `HH:MM:SS.mmm --> HH:MM:SS.mmm` of a simplified WebVTT text (the
 * cue timings of section 4.1 of the W3C WebVTT specification, with hours of
 * exactly two digits) and collects the text lines that follow each of them.
 */
module Captions {
  import opened Base
  import opened Lists
  import opened Text

  datatype Caption = Caption(start: real, duration: real, text: string)

  // ---------------------------------------------------------------------------
  // The cue-timing pattern
  // (\d{2}):(\d{2}):(\d{2})\.(\d{3})\s*-->\s*(\d{2}):(\d{2}):(\d{2})\.(\d{3})

  /** A timestamp `dd:dd:dd.ddd` starts at position `i` of `s`. */
  predicate StampAt(s: string, i: nat) {
    i + 12 <= |s|
    && IsDigit(s[i]) && IsDigit(s[i + 1]) && s[i + 2] == ':'
    && IsDigit(s[i + 3]) && IsDigit(s[i + 4]) && s[i + 5] == ':'
    && IsDigit(s[i + 6]) && IsDigit(s[i + 7]) && s[i + 8] == '.'
    && IsDigit(s[i + 9]) && IsDigit(s[i + 10]) && IsDigit(s[i + 11])
  }

  /** `parseInt` of the digits `s[i..j]`. */
  function FieldAt(s: string, i: nat, j: nat): nat
    requires i <= j <= |s|
    requires forall k :: i <= k < j ==> IsDigit(s[k])
    decreases j
  {
    if j == i then 0 else FieldAt(s, i, j - 1) * 10 + DigitValue(s[j - 1])
  }

  /** The seconds the timestamp at `i` stands for: h·3600 + m·60 + s + ms/1000. */
  function StampSeconds(s: string, i: nat): real
    requires StampAt(s, i)
  {
    (FieldAt(s, i, i + 2) * 3600 + FieldAt(s, i + 3, i + 5) * 60 + FieldAt(s, i + 6, i + 8)) as real
      + FieldAt(s, i + 9, i + 12) as real / 1000.0
  }

  /** The first position at or after `i` that is not white space (or the end). */
  function SkipSpace(s: string, i: nat): (j: nat)
    requires i <= |s|
    ensures i <= j <= |s|
    decreases |s| - i
  {
    if i == |s| || !IsSpace(s[i]) then i else SkipSpace(s, i + 1)
  }

  datatype Timing = Timing(start: real, end: real)

  /**
   * The pattern matched at position `i`. A `\s*` is followed by `-` or a
   * digit, neither of them white space, so it can only match the whole run of
   * white space there.
   */
  function MatchAt(s: string, i: nat): Option<Timing> {
    if !StampAt(s, i) then None
    else
      var a := SkipSpace(s, i + 12);
      if !ArrowAt(s, a) then None
      else
        var b := SkipSpace(s, a + 3);
        if !StampAt(s, b) then None
        else Some(Timing(StampSeconds(s, i), StampSeconds(s, b)))
  }

  /** The match at the leftmost position at or after `i` where the pattern matches. */
  function MatchFrom(s: string, i: nat): Option<Timing>
    requires i <= |s|
    decreases |s| - i
  {
    if i == |s| then None else if MatchAt(s, i).Some? then MatchAt(s, i) else MatchFrom(s, i + 1)
  }

  /** `line.match(pattern)`: the pattern is not anchored. */
  function TimeMatch(line: string): Option<Timing> {
    MatchFrom(line, 0)
  }

  /**
   * The search finds the match at the leftmost position where the pattern
   * matches, and finds nothing exactly when it matches nowhere.
   */
  lemma {:induction false} MatchFromLeftmost(s: string, i: nat)
    requires i <= |s|
    ensures MatchFrom(s, i).None? <==> forall k :: i <= k < |s| ==> MatchAt(s, k).None?
    ensures MatchFrom(s, i).Some? ==>
      exists k :: i <= k < |s| && MatchFrom(s, i) == MatchAt(s, k)
                  && forall k' :: i <= k' < k ==> MatchAt(s, k').None?
    decreases |s| - i
  {
    if i < |s| && MatchAt(s, i).None? {
      MatchFromLeftmost(s, i + 1);
      if MatchFrom(s, i).Some? {
        var k :| i + 1 <= k < |s| && MatchFrom(s, i + 1) == MatchAt(s, k)
                 && forall k' :: i + 1 <= k' < k ==> MatchAt(s, k').None?;
        assert forall k' :: i <= k' < k ==> MatchAt(s, k').None?;
      }
    }
  }

  /** A line the pattern matches also passes the `includes('-->')` test before it. */
  lemma {:induction false} MatchHasArrow(s: string, i: nat)
    requires i <= |s| && MatchFrom(s, i).Some?
    ensures ContainsArrow(s)
    decreases |s| - i
  {
    if MatchAt(s, i).Some? {
      assert ArrowAt(s, SkipSpace(s, i + 12));
    } else {
      MatchHasArrow(s, i + 1);
    }
  }

  // ---------------------------------------------------------------------------
  // A writer for cue timings, as the partner of the pattern

  /** A clock time `hh:mm:ss.mmm` with every field in range of its digits. */
  datatype Clock = Clock(h: nat, m: nat, s: nat, ms: nat) {
    predicate Valid() {
      h < 100 && m < 100 && s < 100 && ms < 1000
    }

    function Seconds(): real {
      (h * 3600 + m * 60 + s) as real + ms as real / 1000.0
    }

    function Render(): (r: string)
      requires Valid()
      ensures |r| == 12
    {
      [DigitChar(h / 10), DigitChar(h % 10), ':',
       DigitChar(m / 10), DigitChar(m % 10), ':',
       DigitChar(s / 10), DigitChar(s % 10), '.',
       DigitChar(ms / 100), DigitChar(ms / 10 % 10), DigitChar(ms % 10)]
    }
  }

  /** `a --> b`, as a cue-timing line is written. */
  function TimingLine(a: Clock, b: Clock): string
    requires a.Valid() && b.Valid()
  {
    a.Render() + " --> " + b.Render()
  }

  lemma TwoDigitsReadBack(line: string, i: nat, n: nat)
    requires n < 100 && i + 2 <= |line|
    requires line[i] == DigitChar(n / 10) && line[i + 1] == DigitChar(n % 10)
    ensures FieldAt(line, i, i + 2) == n
  {
    assert FieldAt(line, i, i + 1) == n / 10;
  }

  lemma ThreeDigitsReadBack(line: string, i: nat, n: nat)
    requires n < 1000 && i + 3 <= |line|
    requires line[i] == DigitChar(n / 100) && line[i + 1] == DigitChar(n / 10 % 10)
    requires line[i + 2] == DigitChar(n % 10)
    ensures FieldAt(line, i, i + 3) == n
  {
    assert FieldAt(line, i, i + 1) == n / 100;
    assert FieldAt(line, i, i + 2) == n / 100 * 10 + n / 10 % 10;
  }

  /** A rendered clock time is a timestamp, and it reads back as the clock's seconds. */
  lemma StampReadsBack(line: string, i: nat, c: Clock)
    requires c.Valid() && i + 12 <= |line|
    requires forall k :: 0 <= k < 12 ==> line[i + k] == c.Render()[k]
    ensures StampAt(line, i) && StampSeconds(line, i) == c.Seconds()
  {
    var r := c.Render();
    assert line[i] == r[0] && line[i + 1] == r[1] && line[i + 2] == r[2];
    assert line[i + 3] == r[3] && line[i + 4] == r[4] && line[i + 5] == r[5];
    assert line[i + 6] == r[6] && line[i + 7] == r[7] && line[i + 8] == r[8];
    assert line[i + 9] == r[9] && line[i + 10] == r[10] && line[i + 11] == r[11];
    TwoDigitsReadBack(line, i, c.h);
    TwoDigitsReadBack(line, i + 3, c.m);
    TwoDigitsReadBack(line, i + 6, c.s);
    ThreeDigitsReadBack(line, i + 9, c.ms);
  }

  lemma TimingLineLayout(a: Clock, b: Clock)
    requires a.Valid() && b.Valid()
    ensures var line := TimingLine(a, b);
      |line| == 29
      && (forall k :: 0 <= k < 12 ==> line[k] == a.Render()[k])
      && line[12] == ' ' && line[13] == '-' && line[14] == '-' && line[15] == '>' && line[16] == ' '
      && (forall k :: 0 <= k < 12 ==> line[17 + k] == b.Render()[k])
  {
  }

  /** The pattern matches at the start of a line laid out as `a --> b`. */
  lemma MatchAtLayout(line: string, a: Clock, b: Clock)
    requires a.Valid() && b.Valid() && |line| == 29
    requires forall k :: 0 <= k < 12 ==> line[k] == a.Render()[k]
    requires line[12] == ' ' && line[13] == '-' && line[14] == '-' && line[15] == '>' && line[16] == ' '
    requires forall k :: 0 <= k < 12 ==> line[17 + k] == b.Render()[k]
    ensures MatchAt(line, 0) == Some(Timing(a.Seconds(), b.Seconds()))
  {
    StampReadsBack(line, 0, a);
    StampReadsBack(line, 17, b);
    assert SkipSpace(line, 12) == 13 by {
      assert SkipSpace(line, 13) == 13;
    }
    assert SkipSpace(line, 16) == 17 by {
      assert line[17] == b.Render()[0];
      assert SkipSpace(line, 17) == 17;
    }
  }

  /** A written cue-timing line is matched, and gives back both clock times. */
  lemma TimingLineReadsBack(a: Clock, b: Clock)
    requires a.Valid() && b.Valid()
    ensures TimeMatch(TimingLine(a, b)) == Some(Timing(a.Seconds(), b.Seconds()))
  {
    TimingLineLayout(a, b);
    MatchAtLayout(TimingLine(a, b), a, b);
  }

  // ---------------------------------------------------------------------------
  // Cues

  predicate Blank(line: string) {
    Trim(line) == []
  }

  /**
   * The end of the run of non-blank lines that starts at `j`: the first blank
   * line at or after `j`, or the end of the input.
   */
  function BlockEnd(lines: seq<string>, j: nat): (r: nat)
    requires j <= |lines|
    ensures j <= r <= |lines|
    ensures forall k :: j <= k < r ==> !Blank(lines[k])
    ensures r == |lines| || Blank(lines[r])
    decreases |lines| - j
  {
    if j == |lines| || Blank(lines[j]) then j else BlockEnd(lines, j + 1)
  }

  /** A line of a cue block that contributes text: not blank and without `-->`. */
  predicate IsTextLine(line: string) {
    Trim(line) != [] && !ContainsArrow(Trim(line))
  }

  /** The text a line contributes: trimmed, tags removed, trimmed again. */
  function CueText(line: string): string {
    Trim(StripTags(Trim(line)))
  }

  /** The texts of the text lines among `lines[lo..hi]`, in order. */
  function TextLines(lines: seq<string>, lo: nat, hi: nat): (r: seq<string>)
    requires lo <= hi <= |lines|
    ensures |r| <= hi - lo
    decreases hi
  {
    if lo == hi then []
    else TextLines(lines, lo, hi - 1) + (if IsTextLine(lines[hi - 1]) then [CueText(lines[hi - 1])] else [])
  }

  /** The timing on line `i`, if it is a cue-timing line. */
  function TimingOf(lines: seq<string>, i: nat): Option<Timing>
    requires i < |lines|
  {
    var line := Trim(lines[i]);
    if ContainsArrow(line) then TimeMatch(line) else None
  }

  /** The caption of the cue whose timing line is `i`, if it has any text. */
  function CueAt(lines: seq<string>, i: nat): (r: Option<Caption>)
    requires i < |lines| && TimingOf(lines, i).Some?
    ensures r.Some? <==> |TextLines(lines, i + 1, BlockEnd(lines, i + 1))| > 0
  {
    var t := TimingOf(lines, i).value;
    var texts := TextLines(lines, i + 1, BlockEnd(lines, i + 1));
    if |texts| > 0 then Some(Caption(t.start, t.end - t.start, Join(texts, " "))) else None
  }

  /**
   * The captions of `lines[i..]`: a cue-timing line consumes the run of
   * non-blank lines after it, and scanning resumes after that run.
   */
  function CuesFrom(lines: seq<string>, i: nat): seq<Caption>
    requires i <= |lines|
    decreases |lines| - i
  {
    if i == |lines| then []
    else if TimingOf(lines, i).None? then CuesFrom(lines, i + 1)
    else
      var j := BlockEnd(lines, i + 1);
      var c := CueAt(lines, i);
      (if c.Some? then [c.value] else []) + CuesFrom(lines, j)
  }

  /**
   * The inner loop of `parseVTT`: from line `from`, collect the texts of the
   * run of non-blank lines, and return where the run ends.
   */
  method ReadCueText(lines: seq<string>, from: nat) returns (textLines: seq<string>, j: nat)
    requires from <= |lines|
    ensures j == BlockEnd(lines, from)
    ensures textLines == TextLines(lines, from, j)
  {
    textLines := [];
    j := from;
    while j < |lines| && Trim(lines[j]) != []
      invariant from <= j <= |lines|
      invariant BlockEnd(lines, j) == BlockEnd(lines, from)
      invariant textLines == TextLines(lines, from, j)
      decreases |lines| - j
    {
      var text := Trim(lines[j]);
      if text != [] && !ContainsArrow(text) {
        textLines := textLines + [Trim(StripTags(text))];
      }
      j := j + 1;
    }
  }

  /**
   * One pass of the outer loop of `parseVTT` at line `i`: a cue-timing line
   * yields its caption (if it has text) and moves on past its text; any other
   * line is passed over.
   */
  method ScanLine(lines: seq<string>, i: nat) returns (caption: Option<Caption>, next: nat)
    requires i < |lines|
    ensures i < next <= |lines|
    ensures CuesFrom(lines, i) == (if caption.Some? then [caption.value] else []) + CuesFrom(lines, next)
  {
    caption := None;
    next := i + 1;
    var line := Trim(lines[i]);
    if ContainsArrow(line) {
      var timeMatch := TimeMatch(line);
      if timeMatch.Some? {
        var startTime := timeMatch.value.start;
        var endTime := timeMatch.value.end;
        var textLines, j := ReadCueText(lines, i + 1);
        if |textLines| > 0 {
          caption := Some(Caption(startTime, endTime - startTime, Join(textLines, " ")));
        }
        next := j;
        assert TimingOf(lines, i) == timeMatch;
        assert CueAt(lines, i) == caption;
        return;
      }
    }
    assert TimingOf(lines, i).None?;
  }

  lemma AppendAssoc<T>(a: seq<T>, b: seq<T>, c: seq<T>)
    ensures a + (b + c) == (a + b) + c
  {
  }

  /** `parseVTT`: split into lines and scan them once from the top. */
  method ParseVtt(vttText: string) returns (parsedCaptions: seq<Caption>)
    ensures parsedCaptions == CuesFrom(Split(vttText, '\n'), 0)
  {
    var lines := Split(vttText, '\n');
    parsedCaptions := [];
    var i := 0;
    while i < |lines|
      invariant 0 <= i <= |lines|
      invariant parsedCaptions + CuesFrom(lines, i) == CuesFrom(lines, 0)
      decreases |lines| - i
    {
      var caption, next := ScanLine(lines, i);
      ghost var rest := CuesFrom(lines, next);
      if caption.Some? {
        AppendAssoc(parsedCaptions, [caption.value], rest);
        parsedCaptions := parsedCaptions + [caption.value];
      } else {
        assert [] + rest == rest;
      }
      i := next;
    }
  }

  // ---------------------------------------------------------------------------
  // What the parser promises

  /** Line `i` is a cue-timing line: trimmed, it contains `-->` and matches the pattern. */
  predicate IsTimingLine(lines: seq<string>, i: nat)
    requires i < |lines|
  {
    TimingOf(lines, i).Some?
  }

  /** The number of cue-timing lines among `lines[i..]`. */
  function TimingLineCount(lines: seq<string>, i: nat): nat
    requires i <= |lines|
    decreases |lines| - i
  {
    if i == |lines| then 0
    else (if IsTimingLine(lines, i) then 1 else 0) + TimingLineCount(lines, i + 1)
  }

  lemma {:induction false} TimingLineCountMono(lines: seq<string>, i: nat, j: nat)
    requires i <= j <= |lines|
    ensures TimingLineCount(lines, j) <= TimingLineCount(lines, i)
    decreases j - i
  {
    if i < j {
      TimingLineCountMono(lines, i + 1, j);
    }
  }

  /** Every caption comes from its own cue-timing line, so there are at most as many captions as such lines. */
  lemma {:induction false} CuesCountBound(lines: seq<string>, i: nat)
    requires i <= |lines|
    ensures |CuesFrom(lines, i)| <= TimingLineCount(lines, i)
    decreases |lines| - i
  {
    if i < |lines| {
      if TimingOf(lines, i).None? {
        CuesCountBound(lines, i + 1);
      } else {
        var j := BlockEnd(lines, i + 1);
        CuesCountBound(lines, j);
        TimingLineCountMono(lines, i + 1, j);
      }
    }
  }

  /**
   * Where the scan goes after line `i`: the next line, or, after a cue-timing
   * line, the end of the run of non-blank lines that follows it.
   */
  function Step(lines: seq<string>, i: nat): (r: nat)
    requires i < |lines|
    ensures i < r <= |lines|
  {
    if TimingOf(lines, i).None? then i + 1 else BlockEnd(lines, i + 1)
  }

  /** A scan started at line `i` visits line `k` (`k == |lines|` is the end). */
  ghost predicate Reaches(lines: seq<string>, i: nat, k: nat)
    decreases |lines| - i
  {
    i <= k <= |lines| && (i == k || (i < |lines| && Reaches(lines, Step(lines, i), k)))
  }

  /** The scan goes on from every line it visits. */
  lemma {:induction false} ReachesStep(lines: seq<string>, i: nat, k: nat)
    requires Reaches(lines, i, k) && k < |lines|
    ensures Reaches(lines, i, Step(lines, k))
    decreases |lines| - i
  {
    if i != k {
      ReachesStep(lines, Step(lines, i), k);
    }
  }

  /**
   * Every blank line at or after `i` is visited: a cue's run of text lines
   * ends at the first blank line, so no blank line is ever skipped.
   */
  lemma {:induction false} ReachesBlank(lines: seq<string>, i: nat, k: nat)
    requires i <= k < |lines| && Blank(lines[k])
    ensures Reaches(lines, i, k)
    decreases |lines| - i
  {
    if i < k {
      assert Step(lines, i) <= k;
      ReachesBlank(lines, Step(lines, i), k);
    }
  }

  /**
   * What the scan finds from `i` ends with what it finds from any line it
   * visits: the captions found before that line come first.
   */
  lemma {:induction false} CuesFromSuffix(lines: seq<string>, i: nat, k: nat)
    requires Reaches(lines, i, k)
    ensures exists pre :: CuesFrom(lines, i) == pre + CuesFrom(lines, k)
    decreases |lines| - i
  {
    if i == k {
      assert CuesFrom(lines, i) == [] + CuesFrom(lines, k);
    } else {
      var n := Step(lines, i);
      CuesFromSuffix(lines, n, k);
      var pre :| CuesFrom(lines, n) == pre + CuesFrom(lines, k);
      var head := if TimingOf(lines, i).Some? && CueAt(lines, i).Some? then [CueAt(lines, i).value] else [];
      assert CuesFrom(lines, i) == head + CuesFrom(lines, n);
      AppendAssoc(head, pre, CuesFrom(lines, k));
    }
  }

  /**
   * Every visited cue-timing line with text gives its caption, in place: the
   * captions found from `i` are those found before line `k`, then the caption
   * of line `k`, then those found after its run of text lines.
   */
  lemma CuesComplete(lines: seq<string>, i: nat, k: nat)
    requires Reaches(lines, i, k) && k < |lines| && IsTimingLine(lines, k) && CueAt(lines, k).Some?
    ensures exists pre :: CuesFrom(lines, i) == pre + [CueAt(lines, k).value] + CuesFrom(lines, BlockEnd(lines, k + 1))
  {
    CuesFromSuffix(lines, i, k);
    var pre :| CuesFrom(lines, i) == pre + CuesFrom(lines, k);
    AppendAssoc(pre, [CueAt(lines, k).value], CuesFrom(lines, BlockEnd(lines, k + 1)));
  }

  /**
   * A cue whose timing line is the first line of the text, or follows a
   * blank line, is in the parser's output.
   */
  lemma CueAfterBlankIsParsed(lines: seq<string>, k: nat)
    requires k < |lines| && IsTimingLine(lines, k) && CueAt(lines, k).Some?
    requires k == 0 || Blank(lines[k - 1])
    ensures CueAt(lines, k).value in CuesFrom(lines, 0)
  {
    if k > 0 {
      BlankIsNotTiming(lines, k - 1);
      ReachesBlank(lines, 0, k - 1);
      ReachesStep(lines, 0, k - 1);
    }
    CuesComplete(lines, 0, k);
  }

  /** A blank line is not a cue-timing line, so the scan moves on to the next line. */
  lemma BlankIsNotTiming(lines: seq<string>, k: nat)
    requires k < |lines| && Blank(lines[k])
    ensures Step(lines, k) == k + 1
  {
    assert !ContainsArrow(Trim(lines[k]));
  }

  /**
   * `cues` are, in input order, the captions of the cue-timing lines `ks`,
   * each visited by the scan from `i`: each caption carries the timing of its
   * line, the duration end − start and the space-joined texts of the
   * non-blank run after the line, and the next timing line lies past that
   * run, so lines read as text are never rescanned as timing lines.
   */
  ghost predicate CueLines(lines: seq<string>, i: nat, ks: seq<nat>, cues: seq<Caption>)
    decreases |ks|
  {
    i <= |lines| && |ks| == |cues|
    && (ks != [] ==>
          i <= ks[0] < |lines| && Reaches(lines, i, ks[0]) && IsTimingLine(lines, ks[0])
          && CueAt(lines, ks[0]) == Some(cues[0])
          && CueLines(lines, BlockEnd(lines, ks[0] + 1), ks[1..], cues[1..]))
  }

  lemma CueLinesFrom(lines: seq<string>, i: nat, ks: seq<nat>, cues: seq<Caption>)
    requires i < |lines| && CueLines(lines, Step(lines, i), ks, cues)
    ensures CueLines(lines, i, ks, cues)
  {
  }

  lemma CueLinesCons(lines: seq<string>, i: nat, ks: seq<nat>, cues: seq<Caption>, c: Caption)
    requires i < |lines| && IsTimingLine(lines, i) && CueAt(lines, i) == Some(c)
    requires CueLines(lines, BlockEnd(lines, i + 1), ks, cues)
    ensures CueLines(lines, i, [i] + ks, [c] + cues)
  {
    assert ([i] + ks)[1..] == ks;
    assert ([c] + cues)[1..] == cues;
  }

  /** The captions found from line `i` on all come from timing lines the scan visits. */
  lemma {:induction false} CuesFromOrigin(lines: seq<string>, i: nat)
    requires i <= |lines|
    ensures exists ks :: CueLines(lines, i, ks, CuesFrom(lines, i))
    decreases |lines| - i
  {
    if i == |lines| {
      assert CuesFrom(lines, i) == [];
      assert CueLines(lines, i, [], []);
    } else if TimingOf(lines, i).None? {
      CuesFromOrigin(lines, i + 1);
      var ks :| CueLines(lines, i + 1, ks, CuesFrom(lines, i + 1));
      assert CuesFrom(lines, i) == CuesFrom(lines, i + 1);
      CueLinesFrom(lines, i, ks, CuesFrom(lines, i + 1));
    } else {
      var j := BlockEnd(lines, i + 1);
      CuesFromOrigin(lines, j);
      var ks :| CueLines(lines, j, ks, CuesFrom(lines, j));
      var c := CueAt(lines, i);
      if c.Some? {
        assert CuesFrom(lines, i) == [c.value] + CuesFrom(lines, j);
        CueLinesCons(lines, i, ks, CuesFrom(lines, j), c.value);
      } else {
        assert CuesFrom(lines, i) == CuesFrom(lines, j);
        CueLinesFrom(lines, i, ks, CuesFrom(lines, j));
      }
    }
  }

  /** A written cue-timing line has no line break, no surrounding space, and an arrow. */
  lemma TimingLineShape(a: Clock, b: Clock)
    requires a.Valid() && b.Valid()
    ensures var line := TimingLine(a, b);
      '\n' !in line && Trim(line) == line && ContainsArrow(line)
  {
    var line := TimingLine(a, b);
    TimingLineLayout(a, b);
    assert ArrowAt(line, 13);
    forall k | 0 <= k < |line|
      ensures line[k] != '\n'
    {
      if k < 12 {
        assert line[k] == a.Render()[k];
      } else if 17 <= k {
        assert line[k] == b.Render()[k - 17];
      }
    }
    assert IsDigit(line[0]) && IsDigit(line[28]);
    TrimUnchanged(line);
  }

  /** What the scan needs to know about a rendered timing line. */
  lemma TimingLineFacts(a: Clock, b: Clock, line: string)
    requires a.Valid() && b.Valid() && line == TimingLine(a, b)
    ensures '\n' !in line && Trim(line) == line && ContainsArrow(line)
    ensures TimeMatch(line) == Some(Timing(a.Seconds(), b.Seconds()))
  {
    TimingLineShape(a, b);
    TimingLineReadsBack(a, b);
  }

  /**
   * A one-cue text — the timing line `a --> b`, a line break, and one text line `t` (no line
   * break, no `>`, no `-->`, no white space at either end) — parses to
   * exactly one caption: start a, duration b − a, text t.
   */
  lemma SingleCueRoundTrip(a: Clock, b: Clock, t: string, line: string, start: real, end: real)
    requires a.Valid() && b.Valid() && line == TimingLine(a, b)
    requires start == a.Seconds() && end == b.Seconds()
    requires t != [] && !IsSpace(t[0]) && !IsSpace(t[|t| - 1])
    requires '\n' !in t && '>' !in t && !ContainsArrow(t)
    ensures CuesFrom(Split(line + "\n" + t, '\n'), 0) == [Caption(start, end - start, t)]
  {
    TimingLineFacts(a, b, line);
    TimingThenText(line, t, start, end);
  }

  /** A timing line, a line break and one plain text line give one caption. */
  lemma TimingThenText(line: string, t: string, start: real, end: real)
    requires '\n' !in line && Trim(line) == line && ContainsArrow(line) && TimeMatch(line) == Some(Timing(start, end))
    requires t != [] && !IsSpace(t[0]) && !IsSpace(t[|t| - 1])
    requires '\n' !in t && '>' !in t && !ContainsArrow(t)
    ensures CuesFrom(Split(line + "\n" + t, '\n'), 0) == [Caption(start, end - start, t)]
  {
    SplitTwo(line, t, '\n');
    TwoLineCue(line, t, Timing(start, end));
  }

  /** A plain text line is its own cue text. */
  lemma PlainCueText(t: string)
    requires t != [] && !IsSpace(t[0]) && !IsSpace(t[|t| - 1]) && '>' !in t && !ContainsArrow(t)
    ensures IsTextLine(t) && CueText(t) == t
  {
    TrimUnchanged(t);
  }

  /** A timing line followed by one plain text line gives one caption. */
  lemma TwoLineCue(line: string, t: string, tm: Timing)
    requires Trim(line) == line && ContainsArrow(line) && TimeMatch(line) == Some(tm)
    requires t != [] && !IsSpace(t[0]) && !IsSpace(t[|t| - 1]) && '>' !in t && !ContainsArrow(t)
    ensures CuesFrom([line, t], 0) == [Caption(tm.start, tm.end - tm.start, t)]
  {
    var lines := [line, t];
    PlainCueText(t);
    assert TimingOf(lines, 0) == Some(tm);
    assert BlockEnd(lines, 1) == 2 by {
      assert !Blank(lines[1]);
      assert BlockEnd(lines, 2) == 2;
    }
    assert TextLines(lines, 1, 2) == [t] by {
      assert TextLines(lines, 1, 1) == [];
    }
    assert CueAt(lines, 0) == Some(Caption(tm.start, tm.end - tm.start, t));
    assert CuesFrom(lines, 2) == [];
  }

  /** A cue-timing line followed directly by a blank line or the end gives no caption. */
  lemma NoTextNoCaption(lines: seq<string>, i: nat)
    requires i < |lines| && IsTimingLine(lines, i)
    requires i + 1 == |lines| || Blank(lines[i + 1])
    ensures CueAt(lines, i).None?
    ensures CuesFrom(lines, i) == CuesFrom(lines, i + 1)
  {
  }

  /**
   * The text a line contributes is trimmed at both ends and holds no `<`
   * with a `>` after it, so no tag is left in it.
   */
  lemma CueTextClean(line: string)
    ensures var r := CueText(line);
      (r == [] || (!IsSpace(r[0]) && !IsSpace(r[|r| - 1])))
      && forall i, j :: 0 <= i < j < |r| && r[i] == '<' ==> r[j] != '>'
  {
    var stripped := StripTags(Trim(line));
    var r := Trim(stripped);
    TrimSpec(stripped);
    var d := |stripped| - |TrimStart(stripped)|;
    forall i, j | 0 <= i < j < |r| && r[i] == '<'
      ensures r[j] != '>'
    {
      assert r[i] == stripped[d + i] && r[j] == stripped[d + j];
    }
  }

  // ---------------------------------------------------------------------------
  // The active caption

  /** Half-open: `start <= t < start + duration`. */
  predicate Covers(c: Caption, t: real) {
    c.start <= t < c.start + c.duration
  }

  function CoversTime(t: real): Caption -> bool {
    (c: Caption) => Covers(c, t)
  }

  /** `getCurrentCaption(t)`: the first caption in list order whose interval holds `t`. */
  function CurrentCaption(captions: seq<Caption>, t: real): (r: Option<Caption>)
    ensures r.None? <==> forall j :: 0 <= j < |captions| ==> !Covers(captions[j], t)
    ensures r.Some? ==> exists i :: 0 <= i < |captions| && captions[i] == r.value && Covers(r.value, t)
                                   && forall j :: 0 <= j < i ==> !Covers(captions[j], t)
  {
    var k := FirstIndex(captions, CoversTime(t));
    if k.Some? then Some(captions[k.value]) else None
  }

  /**
   * The interval is half-open: its start selects the caption (when the
   * duration is positive) and its end does not.
   */
  lemma IntervalIsHalfOpen(c: Caption)
    ensures CurrentCaption([c], c.start) == if c.duration > 0.0 then Some(c) else None
    ensures CurrentCaption([c], c.start + c.duration).None?
  {
  }
}
