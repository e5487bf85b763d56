/** String operations shared by the Python backend, the TypeScript front end
    and the scraper: case folding, the two languages' whitespace sets,
    stripping, substring search, splitting on whitespace, joining, character
    replacement and the decimal rendering of integers. */
module Text {

  // ---------------------------------------------------------------------
  // Case folding (ASCII letters only)
  // ---------------------------------------------------------------------

  function LowerChar(c: char): char {
    if 'A' <= c <= 'Z' then (c as int + 32) as char else c
  }

  /** `str.lower()` in Python and `toLowerCase()` in JavaScript, restricted
      to the ASCII letters. */
  function Lower(s: string): (r: string)
    ensures |r| == |s|
    ensures forall i :: 0 <= i < |s| ==> r[i] == LowerChar(s[i])
  {
    seq(|s|, i requires 0 <= i < |s| => LowerChar(s[i]))
  }

  predicate NoUpper(s: string) {
    forall i :: 0 <= i < |s| ==> !('A' <= s[i] <= 'Z')
  }

  lemma LowerFixesNoUpper(s: string)
    requires NoUpper(s)
    ensures Lower(s) == s
  {
  }

  // ---------------------------------------------------------------------
  // Whitespace
  // ---------------------------------------------------------------------

  /** The characters for which Python's `str.isspace()` holds; `str.split()`
      and `str.strip()` use exactly this set. */
  predicate IsPySpace(c: char) {
    var n := c as int;
    (9 <= n <= 13) || (0x1c <= n <= 0x1f) || n == 0x20 || n == 0x85 || n == 0xa0
    || n == 0x1680 || (0x2000 <= n <= 0x200a) || n == 0x2028 || n == 0x2029
    || n == 0x202f || n == 0x205f || n == 0x3000
  }

  /** The characters JavaScript's `String.prototype.trim` removes: the
      WhiteSpace and LineTerminator productions of ECMAScript. */
  predicate IsJsSpace(c: char) {
    var n := c as int;
    (9 <= n <= 13) || n == 0x20 || n == 0xa0 || n == 0x1680
    || (0x2000 <= n <= 0x200a) || n == 0x2028 || n == 0x2029
    || n == 0x202f || n == 0x205f || n == 0x3000 || n == 0xfeff
  }

  predicate NoPySpace(s: string) {
    forall i :: 0 <= i < |s| ==> !IsPySpace(s[i])
  }

  // ---------------------------------------------------------------------
  // Stripping
  // ---------------------------------------------------------------------

  /** The number of leading characters of `s` that satisfy `isSpace`. */
  function Lead(s: string, isSpace: char -> bool): (n: nat)
    ensures n <= |s|
    ensures forall k :: 0 <= k < n ==> isSpace(s[k])
    ensures n == |s| || !isSpace(s[n])
  {
    if s == [] || !isSpace(s[0]) then 0 else 1 + Lead(s[1..], isSpace)
  }

  /** The number of trailing characters of `s` that satisfy `isSpace`. */
  function Trail(s: string, isSpace: char -> bool): (n: nat)
    ensures n <= |s|
    ensures forall k :: |s| - n <= k < |s| ==> isSpace(s[k])
    ensures n == |s| || !isSpace(s[|s| - 1 - n])
  {
    if s == [] || !isSpace(s[|s| - 1]) then 0 else 1 + Trail(s[..|s| - 1], isSpace)
  }

  /** Removes the leading and trailing characters of `s` that satisfy
      `isSpace`: what is cut off is all space (see `Lead` and `Trail`), and
      the result neither begins nor ends with space. */
  function Strip(s: string, isSpace: char -> bool): (r: string)
    ensures |r| <= |s|
    ensures r == [] || (!isSpace(r[0]) && !isSpace(r[|r| - 1]))
    ensures r == [] <==> forall k :: 0 <= k < |s| ==> isSpace(s[k])
  {
    var i := Lead(s, isSpace);
    if i == |s| then []
    else
      var n := Trail(s, isSpace);
      s[i..|s| - n]
  }

  lemma StripKeepsUnpadded(s: string, isSpace: char -> bool)
    requires s == [] || (!isSpace(s[0]) && !isSpace(s[|s| - 1]))
    ensures Strip(s, isSpace) == s
  {
  }

  /** Python `str.strip()`. */
  function PyStrip(s: string): string {
    Strip(s, IsPySpace)
  }

  /** JavaScript `String.prototype.trim()`. */
  function JsTrim(s: string): string {
    Strip(s, IsJsSpace)
  }

  // ---------------------------------------------------------------------
  // Prefixes and substrings
  // ---------------------------------------------------------------------

  predicate StartsWith(s: string, prefix: string) {
    |prefix| <= |s| && s[..|prefix|] == prefix
  }

  predicate OccursAt(hay: string, needle: string, i: int) {
    0 <= i && i + |needle| <= |hay| && hay[i..i + |needle|] == needle
  }

  /** `needle` occurs somewhere in `hay`. */
  ghost predicate OccursIn(hay: string, needle: string) {
    exists i :: OccursAt(hay, needle, i)
  }

  /** Substring test: Python's `needle in hay`, JavaScript's
      `hay.includes(needle)`. */
  predicate Contains(hay: string, needle: string)
    decreases |hay|
  {
    StartsWith(hay, needle) || (hay != [] && Contains(hay[1..], needle))
  }

  /** The scanning definition agrees with "occurs at some position". */
  lemma {:induction false} ContainsIff(hay: string, needle: string)
    ensures Contains(hay, needle) <==> OccursIn(hay, needle)
    decreases |hay|
  {
    if hay != [] {
      ContainsIff(hay[1..], needle);
      forall i | OccursAt(hay[1..], needle, i)
        ensures OccursAt(hay, needle, i + 1)
      {
        assert hay[1..][i..i + |needle|] == hay[i + 1..i + 1 + |needle|];
      }
      forall i | OccursAt(hay, needle, i) && i > 0
        ensures OccursAt(hay[1..], needle, i - 1)
      {
        assert hay[1..][i - 1..i - 1 + |needle|] == hay[i..i + |needle|];
      }
    }
    if StartsWith(hay, needle) {
      assert OccursAt(hay, needle, 0);
    }
  }

  lemma ContainsEmpty(hay: string)
    ensures Contains(hay, "")
  {
    assert StartsWith(hay, "");
  }

  // ---------------------------------------------------------------------
  // Joining and splitting
  // ---------------------------------------------------------------------

  /** Python `sep.join(parts)`, JavaScript `parts.join(sep)`. */
  function Join(parts: seq<string>, sep: string): string {
    if |parts| == 0 then ""
    else if |parts| == 1 then parts[0]
    else parts[0] + sep + Join(parts[1..], sep)
  }

  lemma {:induction false} JoinSnoc(parts: seq<string>, last: string, sep: string)
    ensures Join(parts + [last], sep) == if parts == [] then last else Join(parts, sep) + sep + last
  {
    if |parts| > 1 {
      assert (parts + [last])[1..] == parts[1..] + [last];
      JoinSnoc(parts[1..], last, sep);
    } else if |parts| == 1 {
      assert (parts + [last])[1..] == [last];
    }
  }

  /** The longest prefix of `s` without Python whitespace. */
  function TakeWord(s: string): (w: string)
    ensures |w| <= |s| && w == s[..|w|]
    ensures NoPySpace(w)
    ensures |w| == |s| || IsPySpace(s[|w|])
  {
    if s == [] || IsPySpace(s[0]) then [] else [s[0]] + TakeWord(s[1..])
  }

  /** Python `s.split()` with no separator: the maximal runs of
      non-whitespace characters, in order. */
  function Words(s: string): (ws: seq<string>)
    ensures forall k :: 0 <= k < |ws| ==> ws[k] != [] && NoPySpace(ws[k])
    decreases |s|
  {
    if s == [] then []
    else if IsPySpace(s[0]) then Words(s[1..])
    else
      var w := TakeWord(s);
      [w] + Words(s[|w|..])
  }

  lemma WordsOfUnspaced(s: string)
    requires s != [] && NoPySpace(s)
    ensures Words(s) == [s]
  {
    assert TakeWord(s) == s;
  }

  lemma {:induction false} JoinOnlySpaceSeparators(parts: seq<string>)
    requires forall k :: 0 <= k < |parts| ==> NoPySpace(parts[k])
    ensures forall i :: 0 <= i < |Join(parts, " ")| && IsPySpace(Join(parts, " ")[i]) ==> Join(parts, " ")[i] == ' '
  {
    if |parts| > 1 {
      JoinOnlySpaceSeparators(parts[1..]);
      var rest := Join(parts[1..], " ");
      assert Join(parts, " ") == parts[0] + " " + rest;
      forall i | 0 <= i < |Join(parts, " ")| && IsPySpace(Join(parts, " ")[i])
        ensures Join(parts, " ")[i] == ' '
      {
        if i > |parts[0]| {
          assert Join(parts, " ")[i] == rest[i - |parts[0]| - 1];
        }
      }
    }
  }

  /** The parts written one after another. */
  function Concat(parts: seq<string>): string {
    if parts == [] then "" else parts[0] + Concat(parts[1..])
  }

  lemma {:induction false} ConcatSnoc(parts: seq<string>, last: string)
    ensures Concat(parts + [last]) == Concat(parts) + last
  {
    if parts != [] {
      assert (parts + [last])[1..] == parts[1..] + [last];
      ConcatSnoc(parts[1..], last);
    } else {
      assert Concat([last]) == last + Concat([]);
    }
  }

  /** The leftmost position at which `sep` occurs in `s`, or `|s|` when it
      occurs nowhere. */
  function Find(s: string, sep: string): (i: nat)
    requires sep != []
    ensures i <= |s|
    ensures i < |s| ==> OccursAt(s, sep, i)
    decreases |s|
  {
    if |s| < |sep| then |s|
    else if StartsWith(s, sep) then 0
    else
      var i := Find(s[1..], sep);
      OccursShift(s, sep, i + 1);
      1 + i
  }

  /** An occurrence past the first character is one in the tail. */
  lemma OccursShift(s: string, sep: string, j: int)
    requires s != [] && 0 < j
    ensures OccursAt(s, sep, j) <==> OccursAt(s[1..], sep, j - 1)
  {
    if j + |sep| <= |s| {
      assert s[1..][j - 1..j - 1 + |sep|] == s[j..j + |sep|];
    }
  }

  /** `Find` returns the leftmost occurrence: `sep` occurs at no position
      before it, hence nowhere when it returns `|s|`. */
  lemma {:induction false} FindLeftmost(s: string, sep: string)
    requires sep != []
    ensures forall j :: 0 <= j < Find(s, sep) ==> !OccursAt(s, sep, j)
    ensures Find(s, sep) == |s| ==> forall j :: !OccursAt(s, sep, j)
    decreases |s|
  {
    if |s| >= |sep| && !StartsWith(s, sep) {
      FindLeftmost(s[1..], sep);
      forall j | 0 <= j < Find(s, sep) ensures !OccursAt(s, sep, j) {
        if j > 0 {
          OccursShift(s, sep, j);
        } else {
          assert s[0..|sep|] == s[..|sep|];
        }
      }
    }
  }

  /** JavaScript `s.split(sep)` for a non-empty separator: the text between
      consecutive leftmost, non-overlapping occurrences of `sep`. */
  function Split(s: string, sep: string): (r: seq<string>)
    requires sep != []
    ensures |r| >= 1
    decreases |s|
  {
    var i := Find(s, sep);
    if i == |s| then [s] else [s[..i]] + Split(s[i + |sep|..], sep)
  }

  /** One step of `Split` at a found separator. */
  lemma SplitStep(s: string, sep: string)
    requires sep != [] && Find(s, sep) < |s|
    ensures Split(s, sep) == [s[..Find(s, sep)]] + Split(s[Find(s, sep) + |sep|..], sep)
  {
  }

  /** A text is the part before a found separator, the separator and the
      part after it. */
  lemma AroundOccurrence(s: string, sep: string, i: nat)
    requires OccursAt(s, sep, i)
    ensures s == s[..i] + sep + s[i + |sep|..]
  {
    assert s[i..i + |sep|] == sep;
    assert s == s[..i] + s[i..i + |sep|] + s[i + |sep|..];
  }

  /** Nothing is lost: the pieces joined back with the separator give the
      text. */
  lemma {:induction false} SplitJoin(s: string, sep: string)
    requires sep != []
    ensures Join(Split(s, sep), sep) == s
    decreases |s|
  {
    var i := Find(s, sep);
    if i < |s| {
      var rest := s[i + |sep|..];
      SplitJoin(rest, sep);
      var r := Split(rest, sep);
      SplitStep(s, sep);
      JoinCons(s[..i], r, sep);
      AroundOccurrence(s, sep, i);
    }
  }

  lemma JoinCons(a: string, r: seq<string>, sep: string)
    requires |r| >= 1
    ensures Join([a] + r, sep) == a + sep + Join(r, sep)
  {
    assert ([a] + r)[1..] == r;
  }

  /** `i` is the leftmost occurrence, so `Find` returns it. */
  lemma FindIs(s: string, sep: string, i: nat)
    requires sep != []
    requires OccursAt(s, sep, i)
    requires forall j :: 0 <= j < i ==> !OccursAt(s, sep, j)
    ensures Find(s, sep) == i
  {
    FindLeftmost(s, sep);
  }

  /** An occurrence that ends within `s` is unaffected by text appended
      after it; one in `s` alone is one in the longer text. */
  lemma OccursInExtension(s: string, t: string, sep: string, j: int)
    ensures OccursAt(s, sep, j) ==> OccursAt(s + t, sep, j)
    ensures j + |sep| <= |s| ==> (OccursAt(s + t, sep, j) <==> OccursAt(s, sep, j))
  {
    if 0 <= j && j + |sep| <= |s| {
      assert (s + t)[j..j + |sep|] == s[j..j + |sep|];
    }
  }

  /** `sep` does not occur before its first occurrence. */
  lemma PrefixBeforeFindIsFree(s: string, sep: string)
    requires sep != []
    ensures forall j :: !OccursAt(s[..Find(s, sep)], sep, j)
  {
    var i := Find(s, sep);
    FindLeftmost(s, sep);
    forall j ensures !OccursAt(s[..i], sep, j) {
      OccursInExtension(s[..i], s[i..], sep, j);
      assert s[..i] + s[i..] == s;
    }
  }

  /** `sep` does not occur inside any piece. */
  lemma {:induction false} SplitPiecesAreFree(s: string, sep: string)
    requires sep != []
    ensures forall k, j :: 0 <= k < |Split(s, sep)| ==> !OccursAt(Split(s, sep)[k], sep, j)
    decreases |s|
  {
    var i := Find(s, sep);
    if i == |s| {
      FindLeftmost(s, sep);
      assert Split(s, sep) == [s];
    } else {
      var rest := s[i + |sep|..];
      SplitPiecesAreFree(rest, sep);
      PrefixBeforeFindIsFree(s, sep);
      SplitStep(s, sep);
      var pieces, tail := Split(s, sep), Split(rest, sep);
      assert pieces == [s[..i]] + tail;
      forall k, j | 0 <= k < |pieces| ensures !OccursAt(pieces[k], sep, j) {
        if k > 0 {
          assert pieces[k] == tail[k - 1];
        }
      }
    }
  }


  /** Splitting is online: text appended later can only extend the last
      piece or add pieces after it, so the pieces before the last are final. */
  lemma {:induction false} SplitAppend(s: string, t: string, sep: string)
    requires sep != []
    ensures var pieces := Split(s, sep);
            Split(s + t, sep) == pieces[..|pieces| - 1] + Split(pieces[|pieces| - 1] + t, sep)
    decreases |s|
  {
    var i := Find(s, sep);
    if i < |s| {
      var rest := s[i + |sep|..];
      FindFirstKept(s, t, sep, i);
      SplitAppend(rest, t, sep);
      SplitStep(s, sep);
      var r := Split(rest, sep);
      ConsThenAppend(Split(s, sep), s[..i], r, Split(r[|r| - 1] + t, sep), Split(rest + t, sep), Split(s + t, sep));
    } else {
      assert Split(s, sep) == [s];
    }
  }

  /** A separator found in `s` is still the first one once text is
      appended, so the longer text splits there too. */
  lemma FindFirstKept(s: string, t: string, sep: string, i: nat)
    requires sep != [] && i == Find(s, sep) < |s|
    ensures Split(s + t, sep) == [s[..i]] + Split(s[i + |sep|..] + t, sep)
  {
    var u := s + t;
    FindInExtension(s, t, sep);
    SlicesOfAppend(s, t, i, i + |sep|);
    var head, rest := u[..i], u[i + |sep|..];
    assert head == s[..i] && rest == s[i + |sep|..] + t;
    SplitAt(u, sep, i);
    assert Split(u, sep) == [head] + Split(rest, sep);
  }

  /** `SplitStep` at a known index. */
  lemma SplitAt(s: string, sep: string, i: nat)
    requires sep != [] && i == Find(s, sep) < |s|
    ensures Split(s, sep) == [s[..i]] + Split(s[i + |sep|..], sep)
  {
    SplitStep(s, sep);
  }

  lemma SlicesOfAppend(s: string, t: string, i: nat, j: nat)
    requires i <= j <= |s|
    ensures (s + t)[..i] == s[..i] && (s + t)[j..] == s[j..] + t
  {
  }

  /** Text appended after a found separator does not move it. */
  lemma FindInExtension(s: string, t: string, sep: string)
    requires sep != [] && Find(s, sep) < |s|
    ensures Find(s + t, sep) == Find(s, sep)
  {
    var i := Find(s, sep);
    FindLeftmost(s, sep);
    OccursInExtension(s, t, sep, i);
    forall j | 0 <= j < i ensures !OccursAt(s + t, sep, j) {
      OccursInExtension(s, t, sep, j);
    }
    FindIs(s + t, sep, i);
  }


  /** The list algebra of one `SplitAppend` step. */
  lemma ConsThenAppend<T>(pieces: seq<T>, a: T, r: seq<T>, tail: seq<T>, restWhole: seq<T>, whole: seq<T>)
    requires |r| >= 1 && pieces == [a] + r
    requires restWhole == r[..|r| - 1] + tail
    requires whole == [a] + restWhole
    ensures pieces[|pieces| - 1] == r[|r| - 1]
    ensures whole == pieces[..|pieces| - 1] + tail
  {
    assert pieces[..|pieces| - 1] == [a] + r[..|r| - 1];
  }

  /** A piece with no line break, followed by the separator: it is the first
      piece and the rest is split on its own. */
  lemma SplitAtFirst(x: string, rest: string)
    requires '\n' !in x
    ensures Split(x + "\n\n" + rest, "\n\n") == [x] + Split(rest, "\n\n")
  {
    var s := x + "\n\n" + rest;
    assert OccursAt(s, "\n\n", |x|) by {
      assert s[|x|..|x| + 2] == "\n\n";
    }
    forall j | 0 <= j < |x| ensures !OccursAt(s, "\n\n", j) {
      assert s[j] == x[j];
    }
    FindIs(s, "\n\n", |x|);
    assert s[..|x|] == x;
    assert s[|x| + 2..] == rest;
  }

  // ---------------------------------------------------------------------
  // Character replacement
  // ---------------------------------------------------------------------

  /** Python `s.replace(c, rep)` for a one-character pattern `c`. */
  function ReplaceChar(s: string, c: char, rep: string): (t: string)
    ensures c !in rep ==> c !in t
  {
    if s == [] then [] else (if s[0] == c then rep else [s[0]]) + ReplaceChar(s[1..], c, rep)
  }

  lemma {:induction false} ReplaceCharAbsent(s: string, c: char, rep: string)
    requires c !in s
    ensures ReplaceChar(s, c, rep) == s
  {
    if s != [] {
      assert c !in s[1..];
      ReplaceCharAbsent(s[1..], c, rep);
    }
  }

  // ---------------------------------------------------------------------
  // Decimal rendering
  // ---------------------------------------------------------------------

  function DigitChar(d: nat): char
    requires d < 10
  {
    ('0' as int + d) as char
  }

  function NatToString(n: nat): (r: string)
    ensures |r| >= 1 && (n < 10 <==> |r| == 1)
    ensures forall i :: 0 <= i < |r| ==> '0' <= r[i] <= '9'
  {
    if n < 10 then [DigitChar(n)] else NatToString(n / 10) + [DigitChar(n % 10)]
  }

  /** Python `str(n)` and JavaScript `String(n)` for an integer `n`. */
  function IntToString(n: int): (r: string)
    ensures r != [] && (r[0] == '-' <==> n < 0)
    ensures forall i :: 0 < i < |r| ==> '0' <= r[i] <= '9'
    ensures '0' <= r[0] <= '9' || r[0] == '-'
  {
    if n < 0 then "-" + NatToString(-n) else NatToString(n)
  }

  /** The only integer whose decimal text is "1" is 1. */
  lemma IntToStringIsOne(n: int)
    ensures IntToString(n) == "1" <==> n == 1
  {
    if IntToString(n) == "1" {
      assert n >= 0;
      assert |NatToString(n)| == 1;
      assert DigitChar(n) == '1';
    }
  }

  // ---------------------------------------------------------------------
  // String order
  // ---------------------------------------------------------------------

  /** Python's `<` on strings: code point by code point, a proper prefix
      first. */
  predicate Less(a: string, b: string) {
    b != [] && (a == [] || a[0] < b[0] || (a[0] == b[0] && Less(a[1..], b[1..])))
  }

  lemma {:induction false} LessIrreflexive(a: string)
    ensures !Less(a, a)
  {
    if a != [] {
      LessIrreflexive(a[1..]);
    }
  }

  lemma {:induction false} LessTransitive(a: string, b: string, c: string)
    requires Less(a, b) && Less(b, c)
    ensures Less(a, c)
  {
    if a != [] && a[0] == b[0] && b[0] == c[0] {
      LessTransitive(a[1..], b[1..], c[1..]);
    }
  }

  lemma {:induction false} LessTotal(a: string, b: string)
    requires a != b
    ensures Less(a, b) || Less(b, a)
  {
    if a != [] && b != [] && a[0] == b[0] {
      assert a == [a[0]] + a[1..] && b == [b[0]] + b[1..];
      LessTotal(a[1..], b[1..]);
    }
  }

  lemma {:induction false} LessAsymmetric(a: string, b: string)
    ensures !(Less(a, b) && Less(b, a))
  {
    if a != [] && b != [] && a[0] == b[0] {
      LessAsymmetric(a[1..], b[1..]);
    }
  }

  // ---------------------------------------------------------------------
  // Digits
  // ---------------------------------------------------------------------

  /** A lower-case hexadecimal digit. */
  function HexDigit(d: nat): (c: char)
    requires d < 16
    ensures ' ' <= c <= '~'
  {
    if d < 10 then ('0' as int + d) as char else ('a' as int + d - 10) as char
  }

  predicate AllDigits(s: string) {
    forall i :: 0 <= i < |s| ==> '0' <= s[i] <= '9'
  }

  /** The value of a string of decimal digits. */
  function DigitsValue(s: string): nat
    requires AllDigits(s)
  {
    if s == [] then 0 else DigitsValue(s[..|s| - 1]) * 10 + (s[|s| - 1] as int - '0' as int)
  }

  /** Reading the decimal text of a number gives the number back. */
  lemma {:induction false} DigitsValueOfNatToString(n: nat)
    ensures AllDigits(NatToString(n)) && DigitsValue(NatToString(n)) == n
  {
    var s := NatToString(n);
    if n >= 10 {
      DigitsValueOfNatToString(n / 10);
      assert s[..|s| - 1] == NatToString(n / 10);
    }
  }
}
