/** The Python `str` operations the core relies on, with their documented
    semantics: `find`, `rfind`, `in`, slicing, `strip`, `split`, `join`,
    `lower`, `rstrip(chars)` and `endswith`. Strings are sequences of code
    points, as in Python 3. */
module Text {

  /** `sub` occurs in `s` starting at index `i`. */
  predicate OccursAt(s: string, sub: string, i: int) {
    0 <= i && i + |sub| <= |s| && s[i..i + |sub|] == sub
  }

  /** `s.find(sub, start)` for a non-negative `start`: the lowest index at or
      after `start` where `sub` occurs, or -1 (see `FindSpec`). */
  function Find(s: string, sub: string, start: nat): (r: int)
    ensures r == -1 || (start <= r && OccursAt(s, sub, r))
    decreases |s| - start
  {
    if start + |sub| > |s| then -1
    else if OccursAt(s, sub, start) then start
    else Find(s, sub, start + 1)
  }

  /** `find` returns the first occurrence at or after `start`: nothing occurs
      between `start` and the result, and nothing at all when it is -1. */
  lemma {:induction false} FindSpec(s: string, sub: string, start: nat)
    ensures forall j :: start <= j < Find(s, sub, start) ==> !OccursAt(s, sub, j)
    ensures Find(s, sub, start) == -1 ==> forall j :: start <= j ==> !OccursAt(s, sub, j)
    decreases |s| - start
  {
    if start + |sub| <= |s| && !OccursAt(s, sub, start) {
      FindSpec(s, sub, start + 1);
    }
  }

  /** `sub in s`. */
  predicate Contains(s: string, sub: string) {
    Find(s, sub, 0) != -1
  }

  lemma ContainsIff(s: string, sub: string)
    ensures Contains(s, sub) <==> exists j :: OccursAt(s, sub, j)
  {
    FindSpec(s, sub, 0);
  }

  /** The greatest index at most `i` where `sub` occurs, or -1. */
  function FindAtOrBefore(s: string, sub: string, i: int): (r: int)
    ensures r == -1 || (0 <= r <= i && OccursAt(s, sub, r))
    decreases i + 1
  {
    if i < 0 then -1
    else if OccursAt(s, sub, i) then i
    else FindAtOrBefore(s, sub, i - 1)
  }

  lemma {:induction false} FindAtOrBeforeSpec(s: string, sub: string, i: int)
    ensures forall j :: FindAtOrBefore(s, sub, i) < j <= i ==> !OccursAt(s, sub, j)
    decreases i + 1
  {
    if 0 <= i && !OccursAt(s, sub, i) {
      FindAtOrBeforeSpec(s, sub, i - 1);
    }
  }

  /** `s.rfind(sub)`: the highest index where `sub` occurs, or -1 (see
      `RFindSpec`). */
  function RFind(s: string, sub: string): (r: int)
    ensures r == -1 || OccursAt(s, sub, r)
  {
    FindAtOrBefore(s, sub, |s| - |sub|)
  }

  lemma RFindSpec(s: string, sub: string)
    ensures forall j :: RFind(s, sub) < j ==> !OccursAt(s, sub, j)
  {
    FindAtOrBeforeSpec(s, sub, |s| - |sub|);
  }

  /** `s[lo:hi]` for non-negative bounds: out-of-range bounds are clamped and
      an empty range gives the empty string. */
  function Slice(s: string, lo: nat, hi: nat): (r: string)
    ensures lo <= hi <= |s| ==> r == s[lo..hi]
    ensures hi <= lo ==> r == ""
  {
    var l := if lo <= |s| then lo else |s|;
    var h := if hi <= |s| then hi else |s|;
    if h <= l then "" else s[l..h]
  }

  /** The characters for which `str.isspace()` holds, which `str.strip()`
      removes. */
  predicate IsSpace(c: char) {
    c in {' ', '\t', '\n', '\r', '\U{0B}', '\U{0C}', '\U{1C}', '\U{1D}', '\U{1E}', '\U{1F}',
          '\U{85}', '\U{A0}', '\U{1680}', '\U{2000}', '\U{2001}', '\U{2002}', '\U{2003}',
          '\U{2004}', '\U{2005}', '\U{2006}', '\U{2007}', '\U{2008}', '\U{2009}', '\U{200A}',
          '\U{2028}', '\U{2029}', '\U{202F}', '\U{205F}', '\U{3000}'}
  }

  predicate AllSpace(s: string) {
    forall i :: 0 <= i < |s| ==> IsSpace(s[i])
  }

  function LStrip(s: string): (r: string)
    ensures |r| <= |s| && r == s[|s| - |r|..]
    ensures AllSpace(s[..|s| - |r|])
    ensures r == "" || !IsSpace(r[0])
  {
    if s != [] && IsSpace(s[0]) then
      var r := LStrip(s[1..]);
      assert s[..|s| - |r|] == [s[0]] + s[1..][..|s[1..]| - |r|];
      r
    else s
  }

  function RStrip(s: string): (r: string)
    ensures |r| <= |s| && r == s[..|r|]
    ensures AllSpace(s[|r|..])
    ensures r == "" || !IsSpace(r[|r| - 1])
  {
    if s != [] && IsSpace(s[|s| - 1]) then RStrip(s[..|s| - 1]) else s
  }

  /** `s.strip()`. */
  function Strip(s: string): string {
    LStrip(RStrip(s))
  }

  /** Stripping text padded with white space on both sides gives back the
      text, when the text neither begins nor ends with white space. */
  lemma {:induction false} StripPadded(pre: string, m: string, post: string)
    requires AllSpace(pre) && AllSpace(post)
    requires m != [] && !IsSpace(m[0]) && !IsSpace(m[|m| - 1])
    ensures Strip(pre + m + post) == m
  {
    RStripPadded(pre + m, post);
    LStripPadded(pre, m);
  }

  lemma {:induction false} RStripPadded(m: string, post: string)
    requires AllSpace(post)
    requires m != [] && !IsSpace(m[|m| - 1])
    ensures RStrip(m + post) == m
  {
    if post != [] {
      assert (m + post)[..|m + post| - 1] == m + post[..|post| - 1];
      RStripPadded(m, post[..|post| - 1]);
    } else {
      assert m + post == m;
    }
  }

  lemma {:induction false} LStripPadded(pre: string, m: string)
    requires AllSpace(pre)
    requires m != [] && !IsSpace(m[0])
    ensures LStrip(pre + m) == m
  {
    if pre != [] {
      assert (pre + m)[1..] == pre[1..] + m;
      LStripPadded(pre[1..], m);
    } else {
      assert pre + m == m;
    }
  }

  /** `s.split(sep)` with an explicit one-character separator: the pieces
      between consecutive separators; the empty string gives `[""]`. */
  function Split(s: string, sep: char): (parts: seq<string>)
    ensures |parts| >= 1
    decreases |s|
  {
    var i := Find(s, [sep], 0);
    if i == -1 then [s]
    else [s[..i]] + Split(s[i + 1..], sep)
  }

  /** No piece of a split contains the separator. */
  lemma {:induction false} SplitNoSep(s: string, sep: char)
    ensures forall k :: 0 <= k < |Split(s, sep)| ==> sep !in Split(s, sep)[k]
    decreases |s|
  {
    var i := Find(s, [sep], 0);
    FindSpec(s, [sep], 0);
    var parts := Split(s, sep);
    if i == -1 {
      NoSepBefore(s, sep, |s|);
      assert s[..|s|] == s;
      assert parts == [s];
    } else {
      NoSepBefore(s, sep, i);
      SplitNoSep(s[i + 1..], sep);
      var rest := Split(s[i + 1..], sep);
      assert parts == [s[..i]] + rest;
      forall k | 0 <= k < |parts|
        ensures sep !in parts[k]
      {
        if k > 0 {
          assert parts[k] == rest[k - 1];
        }
      }
    }
  }

  lemma NoSepBefore(s: string, sep: char, bound: nat)
    requires bound <= |s|
    requires forall j :: 0 <= j < bound ==> !OccursAt(s, [sep], j)
    ensures sep !in s[..bound]
  {
    forall j | 0 <= j < bound
      ensures s[j] != sep
    {
      assert !OccursAt(s, [sep], j);
      assert s[j..j + 1] == [s[j]];
    }
  }

  /** Where the `k`-th piece of a split starts in the text. */
  function PieceStart(s: string, sep: char, k: nat): nat
    decreases |s|
  {
    var i := Find(s, [sep], 0);
    if k == 0 || i == -1 then 0 else i + 1 + PieceStart(s[i + 1..], sep, k - 1)
  }

  /** Every piece produced by `split` is the substring of the text at its
      start. */
  lemma {:induction false} PieceInside(s: string, sep: char, k: nat)
    requires k < |Split(s, sep)|
    ensures OccursAt(s, Split(s, sep)[k], PieceStart(s, sep, k))
    decreases |s|
  {
    var i := Find(s, [sep], 0);
    if i == -1 {
      assert s[0..|s|] == s;
    } else if k == 0 {
      assert s[0..i] == s[..i];
    } else {
      SplitTail(s, sep, k);
      PieceInside(s[i + 1..], sep, k - 1);
      PieceShift(s, sep, k, Split(s, sep)[k]);
    }
  }

  lemma SplitTail(s: string, sep: char, k: nat)
    requires Find(s, [sep], 0) != -1 && 0 < k < |Split(s, sep)|
    ensures Split(s, sep)[k] == Split(s[Find(s, [sep], 0) + 1..], sep)[k - 1]
  {
  }

  lemma PieceShift(s: string, sep: char, k: nat, piece: string)
    requires Find(s, [sep], 0) != -1 && k != 0
    requires OccursAt(s[Find(s, [sep], 0) + 1..], piece, PieceStart(s[Find(s, [sep], 0) + 1..], sep, k - 1))
    ensures OccursAt(s, piece, PieceStart(s, sep, k))
  {
    var i := Find(s, [sep], 0);
    OccursInSlice(s, piece, i + 1, |s|, PieceStart(s[i + 1..], sep, k - 1));
  }

  /** `sep.join(parts)`. */
  function Join(parts: seq<string>, sep: char): string
    decreases |parts|
  {
    if parts == [] then ""
    else if |parts| == 1 then parts[0]
    else parts[0] + [sep] + Join(parts[1..], sep)
  }

  /** Splitting and joining again gives back the text. */
  lemma {:induction false} JoinSplit(s: string, sep: char)
    ensures Join(Split(s, sep), sep) == s
    decreases |s|
  {
    var i := Find(s, [sep], 0);
    if i != -1 {
      JoinSplit(s[i + 1..], sep);
      assert s[i..i + 1] == [sep];
      assert s == s[..i] + [sep] + s[i + 1..];
    }
  }

  /** Joining pieces that contain no separator and splitting again gives
      back the pieces. */
  lemma {:induction false} SplitJoin(parts: seq<string>, sep: char)
    requires |parts| >= 1
    requires forall k :: 0 <= k < |parts| ==> sep !in parts[k]
    ensures Split(Join(parts, sep), sep) == parts
    decreases |parts|
  {
    var p := parts[0];
    NoSepNotFound(p, sep);
    if |parts| == 1 {
    } else {
      var s := Join(parts, sep);
      var rest := Join(parts[1..], sep);
      assert s == p + [sep] + rest;
      FindAfterPrefix(p, sep, rest);
      assert s[..|p|] == p;
      assert s[|p| + 1..] == rest;
      SplitJoin(parts[1..], sep);
    }
  }

  lemma NoSepNotFound(p: string, sep: char)
    requires sep !in p
    ensures Find(p, [sep], 0) == -1
  {
    forall j | 0 <= j < |p|
      ensures !OccursAt(p, [sep], j)
    {
      assert p[j] in p;
      assert p[j..j + 1] == [p[j]];
    }
  }

  lemma FindAfterPrefix(p: string, sep: char, rest: string)
    requires sep !in p
    ensures Find(p + [sep] + rest, [sep], 0) == |p|
  {
    var s := p + [sep] + rest;
    assert OccursAt(s, [sep], |p|) by { assert s[|p|..|p| + 1] == [sep]; }
    forall j | 0 <= j < |p|
      ensures s[j] != sep
    {
      assert s[j] == p[j] && p[j] in p;
    }
    FindLandsOn(s, [sep], 0, |p|);
  }

  /** Joining with one more piece appends a separator and the piece. */
  lemma {:induction false} JoinSnoc(init: seq<string>, x: string, sep: char)
    requires |init| >= 1
    ensures Join(init + [x], sep) == Join(init, sep) + [sep] + x
    decreases |init|
  {
    if |init| > 1 {
      assert (init + [x])[1..] == init[1..] + [x];
      JoinSnoc(init[1..], x, sep);
    } else {
      assert (init + [x])[1..] == [x];
    }
  }

  /** The first piece begins the joined text, and a separator follows it
      when there are more. */
  lemma JoinFirst(parts: seq<string>, sep: char)
    requires |parts| >= 1
    ensures parts[0] <= Join(parts, sep)
    ensures |parts| > 1 ==> Join(parts, sep)[|parts[0]|] == sep
  {
  }

  /** A character that no piece holds and that is not the separator does
      not occur in the joined text. */
  lemma {:induction false} NoCharInJoin(parts: seq<string>, c: char, sep: char)
    requires c != sep
    requires forall k :: 0 <= k < |parts| ==> c !in parts[k]
    ensures c !in Join(parts, sep)
    decreases |parts|
  {
    if |parts| > 1 {
      NoCharInJoin(parts[1..], c, sep);
      assert parts[0] in parts;
    } else if |parts| == 1 {
      assert c !in parts[0];
    }
  }

  /** The ASCII case mapping of `str.lower()`. */
  function LowerChar(c: char): char {
    if 'A' <= c <= 'Z' then (c as int + 32) as char else c
  }

  /** `s.lower()` restricted to ASCII letters. */
  function Lower(s: string): (r: string)
    ensures |r| == |s|
    ensures forall i :: 0 <= i < |s| ==> r[i] == LowerChar(s[i])
  {
    seq(|s|, i requires 0 <= i < |s| => LowerChar(s[i]))
  }

  /** `s.rstrip(chars)`: removes the longest trailing run of characters that
      belong to the SET `chars` (not a suffix string). */
  function RStripChars(s: string, chars: set<char>): (r: string)
    ensures |r| <= |s| && r == s[..|r|]
    ensures r == "" || r[|r| - 1] !in chars
  {
    if s != [] && s[|s| - 1] in chars then RStripChars(s[..|s| - 1], chars) else s
  }

  /** A trailing run of stripped characters goes entirely. */
  lemma {:induction false} RStripCharsTail(a: string, b: string, chars: set<char>)
    requires forall i :: 0 <= i < |b| ==> b[i] in chars
    ensures RStripChars(a + b, chars) == RStripChars(a, chars)
    decreases |b|
  {
    if b != [] {
      assert (a + b)[..|a + b| - 1] == a + b[..|b| - 1];
      RStripCharsTail(a, b[..|b| - 1], chars);
    } else {
      assert a + b == a;
    }
  }

  /** Stripping stops inside the last piece when that piece keeps a
      character. */
  lemma {:induction false} RStripCharsInside(p: string, m: string, chars: set<char>)
    requires RStripChars(m, chars) != ""
    ensures RStripChars(p + m, chars) == p + RStripChars(m, chars)
    decreases |m|
  {
    if m != [] && m[|m| - 1] in chars {
      assert (p + m)[..|p + m| - 1] == p + m[..|m| - 1];
      RStripCharsInside(p, m[..|m| - 1], chars);
    }
  }

  /** `s.endswith(suffix)`. */
  predicate EndsWith(s: string, suffix: string) {
    |suffix| <= |s| && s[|s| - |suffix|..] == suffix
  }

  /** Every occurrence of `sub` inside `s[a..b]` is an occurrence in `s`. */
  lemma OccursInSlice(s: string, sub: string, a: nat, b: nat, k: int)
    requires a <= b <= |s|
    ensures OccursAt(s[a..b], sub, k) ==> OccursAt(s, sub, a + k)
  {
    if 0 <= k && k + |sub| <= b - a {
      var w := s[a..b][k..k + |sub|];
      assert forall i :: 0 <= i < |w| ==> w[i] == s[a + k + i];
      assert w == s[a + k..a + k + |sub|];
    }
  }

  /** `find` from `from` lands on `at` when `sub` occurs there and no earlier
      position from `from` on holds the first character of `sub`. */
  lemma FindLandsOn(s: string, sub: string, from: nat, at: nat)
    requires |sub| > 0 && from <= at && OccursAt(s, sub, at)
    requires forall j :: from <= j < at ==> s[j] != sub[0]
    ensures Find(s, sub, from) == at
  {
    FindSpec(s, sub, from);
    forall j | from <= j < at
      ensures !OccursAt(s, sub, j)
    {
      if j + |sub| <= |s| {
        assert s[j..j + |sub|][0] == s[j];
      }
    }
  }

  /** `find` from `from` lands on the first occurrence after a stretch that
      does not hold the first character of `sub`. */
  lemma FirstOccurrence(s: string, sub: string, from: nat, at: nat)
    requires |sub| > 0 && from <= at && OccursAt(s, sub, at) && sub[0] !in s[from..at]
    ensures Find(s, sub, from) == at
  {
    forall j | from <= j < at
      ensures s[j] != sub[0]
    {
      assert s[j] == s[from..at][j - from];
    }
    FindLandsOn(s, sub, from, at);
  }

  /** `find` from `from` fails when the first character of `sub` does not
      occur from there on. */
  lemma NotFoundFrom(s: string, sub: string, from: nat)
    requires |sub| > 0 && from <= |s| && sub[0] !in s[from..]
    ensures Find(s, sub, from) == -1
  {
    forall j | from <= j
      ensures !OccursAt(s, sub, j)
    {
      if j + |sub| <= |s| {
        assert s[j..j + |sub|][0] == s[from..][j - from];
      }
    }
  }

  /** An occurrence of `sub` in `s[a..]` found by `find` is the first
      occurrence in `s` at or after `a`. */
  lemma FindInSuffix(s: string, sub: string, a: nat)
    requires a <= |s|
    ensures Find(s[a..], sub, 0) == -1 ==> Find(s, sub, a) == -1
    ensures Find(s[a..], sub, 0) != -1 ==> Find(s, sub, a) == a + Find(s[a..], sub, 0)
  {
    var t := s[a..];
    var r := Find(t, sub, 0);
    var q := Find(s, sub, a);
    FindSpec(t, sub, 0);
    FindSpec(s, sub, a);
    forall j | 0 <= j
      ensures OccursAt(t, sub, j) <==> OccursAt(s, sub, a + j)
    {
      if j + |sub| <= |t| {
        assert t[j..j + |sub|] == s[a + j..a + j + |sub|];
      }
    }
    if q != -1 {
      assert OccursAt(t, sub, q - a);
    }
  }
}
