/**
 * The string operations the source uses: `trim`, `split`, `join`,
 * `includes('-->')`, the tag-stripping `replace(/<[^>]*>/g, '')`, decimal
 * rendering of integers and `padStart`.
 */
module Text {
  import opened Lists

  /**
   * The characters ECMAScript's `trim` removes and its `\s` class matches:
   * WhiteSpace (tab, vertical tab, form feed, space, no-break space, the byte
   * order mark and the Zs space separators) and LineTerminator.
   */
  predicate IsSpace(c: char) {
    c == '\t' || c == '\n' || c == '\U{B}' || c == '\U{C}' || c == '\r' || c == ' '
    || c == '\U{A0}' || c == '\U{1680}' || ('\U{2000}' <= c <= '\U{200A}')
    || c == '\U{2028}' || c == '\U{2029}' || c == '\U{202F}' || c == '\U{205F}'
    || c == '\U{3000}' || c == '\U{FEFF}'
  }

  /** `String.prototype.trimStart`. */
  function TrimStart(s: string): (r: string)
    ensures |r| <= |s|
  {
    if s != [] && IsSpace(s[0]) then TrimStart(s[1..]) else s
  }

  /** `String.prototype.trimEnd`. */
  function TrimEnd(s: string): (r: string)
    ensures |r| <= |s|
  {
    if s != [] && IsSpace(s[|s| - 1]) then TrimEnd(s[..|s| - 1]) else s
  }

  /** `trimStart` drops the leading white space and nothing else. */
  lemma {:induction false} TrimStartSpec(s: string)
    ensures var r := TrimStart(s); r == s[|s| - |r|..]
    ensures forall k :: 0 <= k < |s| - |TrimStart(s)| ==> IsSpace(s[k])
    ensures TrimStart(s) == [] || !IsSpace(TrimStart(s)[0])
  {
    if s != [] && IsSpace(s[0]) {
      TrimStartSpec(s[1..]);
    }
  }

  /** `trimEnd` drops the trailing white space and nothing else. */
  lemma {:induction false} TrimEndSpec(s: string)
    ensures var r := TrimEnd(s); r == s[..|r|]
    ensures forall k :: |TrimEnd(s)| <= k < |s| ==> IsSpace(s[k])
    ensures TrimEnd(s) == [] || !IsSpace(TrimEnd(s)[|TrimEnd(s)| - 1])
  {
    if s != [] && IsSpace(s[|s| - 1]) {
      TrimEndSpec(s[..|s| - 1]);
    }
  }

  /** `String.prototype.trim`. */
  function Trim(s: string): string {
    TrimEnd(TrimStart(s))
  }

  /**
   * `trim` returns the part of `s` between its leading and its trailing white
   * space, so it is empty exactly when `s` is blank.
   */
  lemma {:induction false} TrimSpec(s: string)
    ensures var r, i := Trim(s), |s| - |TrimStart(s)|;
      i + |r| <= |s| && r == s[i..i + |r|]
        && (forall k :: 0 <= k < i ==> IsSpace(s[k]))
        && (forall k :: i + |r| <= k < |s| ==> IsSpace(s[k]))
    ensures var r := Trim(s); r == [] || (!IsSpace(r[0]) && !IsSpace(r[|r| - 1]))
  {
    var t := TrimStart(s);
    var r := TrimEnd(t);
    var i := |s| - |t|;
    TrimStartSpec(s);
    TrimEndSpec(t);
    assert t == s[i..];
    assert r == t[..|r|];
    assert r == s[i..i + |r|];
    forall k | i + |r| <= k < |s|
      ensures IsSpace(s[k])
    {
      assert s[k] == t[k - i];
    }
    if r != [] {
      assert r[0] == t[0];
    }
  }

  /** A text that neither starts nor ends with white space is its own trim. */
  lemma TrimUnchanged(s: string)
    requires s == [] || (!IsSpace(s[0]) && !IsSpace(s[|s| - 1]))
    ensures Trim(s) == s
  {
  }

  /** A line is blank after trimming exactly when all its characters are white space. */
  lemma TrimBlank(s: string)
    ensures Trim(s) == [] <==> forall k :: 0 <= k < |s| ==> IsSpace(s[k])
  {
    var t := TrimStart(s);
    TrimStartSpec(s);
    TrimEndSpec(t);
    if Trim(s) == [] {
      assert t == [];
    } else {
      var r := Trim(s);
      assert r == t[..|r|];
      assert t == s[|s| - |t|..];
      assert !IsSpace(s[|s| - |t|]);
    }
  }

  /** `String.prototype.split` with a one-character separator. */
  function Split(s: string, sep: char): (r: seq<string>)
    ensures |r| >= 1
  {
    if s == [] then [[]]
    else
      var rest := Split(s[1..], sep);
      if s[0] == sep then [[]] + rest else [[s[0]] + rest[0]] + rest[1..]
  }

  /** No piece of a split holds the separator. */
  lemma {:induction false} SplitPieces(s: string, sep: char)
    ensures forall k :: 0 <= k < |Split(s, sep)| ==> sep !in Split(s, sep)[k]
  {
    if s != [] {
      SplitPieces(s[1..], sep);
    }
  }

  /** A text without the separator splits into itself alone. */
  lemma {:induction false} SplitNoSeparator(s: string, sep: char)
    requires sep !in s
    ensures Split(s, sep) == [s]
  {
    if s != [] {
      SplitNoSeparator(s[1..], sep);
      assert s[0] != sep;
      assert [s[0]] + s[1..] == s;
    }
  }

  /** A separator-free prefix becomes the start of the first piece. */
  lemma {:induction false} SplitPrefix(a: string, rest: string, sep: char)
    requires sep !in a
    ensures Split(a + rest, sep) == [a + Split(rest, sep)[0]] + Split(rest, sep)[1..]
  {
    var parts := Split(rest, sep);
    if a != [] {
      var s := a + rest;
      assert s[0] == a[0] && s[0] != sep;
      assert s[1..] == a[1..] + rest;
      SplitPrefix(a[1..], rest, sep);
      var tail := Split(s[1..], sep);
      assert tail == [a[1..] + parts[0]] + parts[1..];
      assert tail[0] == a[1..] + parts[0] && tail[1..] == parts[1..];
      assert [a[0]] + (a[1..] + parts[0]) == a + parts[0];
    } else {
      assert a + rest == rest;
      assert [] + parts[0] == parts[0];
      assert parts == [parts[0]] + parts[1..];
    }
  }

  /** Two separator-free texts joined by one separator split back into the two. */
  lemma SplitTwo(a: string, b: string, sep: char)
    requires sep !in a && sep !in b
    ensures Split(a + [sep] + b, sep) == [a, b]
  {
    SplitNoSeparator(b, sep);
    assert Split([sep] + b, sep) == [[], b] by {
      assert ([sep] + b)[1..] == b;
    }
    assert a + [sep] + b == a + ([sep] + b);
    SplitPrefix(a, [sep] + b, sep);
    assert a + [] == a;
  }

  /** `Array.prototype.join`. */
  function Join(parts: seq<string>, sep: string): string {
    if parts == [] then []
    else if |parts| == 1 then parts[0]
    else parts[0] + sep + Join(parts[1..], sep)
  }

  /** Joining the pieces of a split with the separator gives back the text. */
  lemma {:induction false} SplitJoin(s: string, sep: char)
    ensures Join(Split(s, sep), [sep]) == s
  {
    if s != [] {
      SplitJoin(s[1..], sep);
      var rest := Split(s[1..], sep);
      if s[0] == sep {
        assert ([[]] + rest)[1..] == rest;
      } else if |rest| > 1 {
        assert ([[s[0]] + rest[0]] + rest[1..])[1..] == rest[1..];
        assert Join(rest, [sep]) == rest[0] + [sep] + Join(rest[1..], [sep]);
      }
    }
  }

  /** `-->` starts at position `i` of `s`. */
  predicate ArrowAt(s: string, i: nat) {
    i + 3 <= |s| && s[i] == '-' && s[i + 1] == '-' && s[i + 2] == '>'
  }

  /** `s.includes('-->')`. */
  predicate ContainsArrow(s: string) {
    exists i :: 0 <= i < |s| && ArrowAt(s, i)
  }

  predicate IsTagClose(c: char) {
    c == '>'
  }

  /**
   * `s.replace(/<[^>]*>/g, '')`: from left to right, every `<` that has a `>`
   * somewhere after it is removed together with everything up to and including
   * the first such `>`; a `<` with no `>` after it stays.
   */
  function StripTags(s: string): (r: string)
    ensures |r| <= |s|
    ensures forall c :: c in r ==> c in s
    ensures '>' !in s ==> r == s
    ensures forall i, j :: 0 <= i < j < |r| && r[i] == '<' ==> r[j] != '>'
    decreases |s|
  {
    if s == [] then []
    else if s[0] == '<' && FirstIndex(s[1..], IsTagClose).Some? then
      StripTags(s[FirstIndex(s[1..], IsTagClose).value + 2..])
    else
      var rest := StripTags(s[1..]);
      assert s[0] == '<' ==> '>' !in s[1..];
      [s[0]] + rest
  }

  // ---------------------------------------------------------------------------
  // Decimal numbers

  predicate IsDigit(c: char) {
    '0' <= c <= '9'
  }

  predicate AllDigits(s: string) {
    forall k :: 0 <= k < |s| ==> IsDigit(s[k])
  }

  function DigitValue(c: char): nat
    requires IsDigit(c)
  {
    c as int - '0' as int
  }

  function DigitChar(d: nat): (c: char)
    requires d < 10
    ensures IsDigit(c) && DigitValue(c) == d
  {
    ('0' as int + d) as char
  }

  /** `parseInt` on a string of decimal digits. */
  function ParseNat(s: string): nat
    requires AllDigits(s)
  {
    if s == [] then 0 else ParseNat(s[..|s| - 1]) * 10 + DigitValue(s[|s| - 1])
  }

  /** `n.toString()` for a natural number: its decimal digits, without leading zeros. */
  function NatToString(n: nat): (r: string)
    ensures |r| >= 1 && AllDigits(r)
    ensures |r| > 1 ==> r[0] != '0'
  {
    if n < 10 then [DigitChar(n)] else NatToString(n / 10) + [DigitChar(n % 10)]
  }

  /** Reading back the decimal rendering of `n` gives `n`. */
  lemma {:induction false} ParseNatToString(n: nat)
    ensures ParseNat(NatToString(n)) == n
  {
    if n >= 10 {
      ParseNatToString(n / 10);
      var r := NatToString(n);
      assert r[..|r| - 1] == NatToString(n / 10);
    }
  }

  /** `i.toString()` for an integer. */
  function IntToString(i: int): string {
    if i < 0 then "-" + NatToString(-i) else NatToString(i)
  }

  /** `s.padStart(width, fill)` with a one-character fill. */
  function PadStart(s: string, width: nat, fill: char): (r: string)
    ensures |r| == if |s| < width then width else |s|
    ensures r[|r| - |s|..] == s
    ensures forall k :: 0 <= k < |r| - |s| ==> r[k] == fill
  {
    if |s| < width then seq(width - |s|, _ => fill) + s else s
  }
}
