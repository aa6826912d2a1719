/**
  The handful of Python `str` operations the program relies on: `in`,
  `find`, `rfind`, `split(c)`, `split()`, `strip()` and `join`, on `seq<char>`.
  Only ASCII and the Unicode white-space characters of `str.isspace` matter here.
 */
module Text {
  import opened Wrappers

  /** Python's `str.isspace` for a single character. */
  predicate IsSpace(c: char) {
    c == ' ' || c == '\t' || c == '\n' || c == '\r' || c == '\U{000B}' || c == '\U{000C}'
    || ('\U{001C}' <= c <= '\U{001F}') || c == '\U{0085}' || c == '\U{00A0}' || c == '\U{1680}'
    || ('\U{2000}' <= c <= '\U{200A}') || c == '\U{2028}' || c == '\U{2029}' || c == '\U{202F}'
    || c == '\U{205F}' || c == '\U{3000}'
  }

  predicate IsDigit(c: char) {
    '0' <= c <= '9'
  }

  predicate AllDigits(s: string) {
    forall i | 0 <= i < |s| :: IsDigit(s[i])
  }

  predicate NoSpace(s: string) {
    forall i | 0 <= i < |s| :: !IsSpace(s[i])
  }

  predicate StartsWith(s: string, prefix: string) {
    |prefix| <= |s| && s[..|prefix|] == prefix
  }

  predicate EndsWith(s: string, suffix: string) {
    |suffix| <= |s| && s[|s| - |suffix|..] == suffix
  }

  /** `w` occurs in `s` starting at position `i`. */
  predicate OccursAt(s: string, w: string, i: nat) {
    i + |w| <= |s| && s[i..i + |w|] == w
  }

  /** Python's `w in s`. */
  predicate Contains(s: string, w: string) {
    exists i: nat | i <= |s| :: OccursAt(s, w, i)
  }

  /** Python's `s.find(w, from)`, with `None` for -1. */
  function FindFrom(s: string, w: string, from: nat): (r: Option<nat>)
    ensures r.Some? ==> from <= r.value && OccursAt(s, w, r.value)
    ensures r.Some? ==> forall j: nat :: from <= j < r.value ==> !OccursAt(s, w, j)
    ensures r.None? ==> forall j: nat :: from <= j ==> !OccursAt(s, w, j)
    decreases |s| - from
  {
    if from + |w| > |s| then None
    else if s[from..from + |w|] == w then Some(from)
    else FindFrom(s, w, from + 1)
  }

  function Find(s: string, w: string): (r: Option<nat>)
    ensures r.Some? <==> Contains(s, w)
    ensures r.Some? ==> OccursAt(s, w, r.value) && forall j: nat :: j < r.value ==> !OccursAt(s, w, j)
  {
    FindFrom(s, w, 0)
  }

  /** Position of the first `c` in `s`. */
  function IndexOfChar(s: string, c: char): (r: Option<nat>)
    ensures r.Some? ==> r.value < |s| && s[r.value] == c && c !in s[..r.value]
    ensures r.None? <==> c !in s
  {
    if c !in s then None
    else if s[0] == c then Some(0)
    else
      var k := IndexOfChar(s[1..], c);
      assert s[..k.value + 1] == [s[0]] + s[1..][..k.value];
      Some(k.value + 1)
  }

  /** The first `c` is at `i` when `s[i]` is `c` and no earlier character is. */
  lemma IndexOfCharIs(s: string, c: char, i: nat)
    requires i < |s| && s[i] == c && c !in s[..i]
    ensures IndexOfChar(s, c) == Some(i)
  {
    var r := IndexOfChar(s, c);
    assert forall k | 0 <= k < i :: s[..i][k] == s[k];
    assert forall k | 0 <= k < r.value :: s[..r.value][k] == s[k];
  }

  /** Python's `s.rfind(c)`, with `None` for -1. */
  function LastIndexOfChar(s: string, c: char): (r: Option<nat>)
    ensures r.Some? ==> r.value < |s| && s[r.value] == c && c !in s[r.value + 1..]
    ensures r.None? <==> c !in s
  {
    if c !in s then None
    else if s[|s| - 1] == c then Some(|s| - 1)
    else
      var k := LastIndexOfChar(s[..|s| - 1], c);
      assert s[k.value + 1..] == s[..|s| - 1][k.value + 1..] + [s[|s| - 1]];
      Some(k.value)
  }

  /** The last `c` is at `i` when `s[i]` is `c` and no later character is. */
  lemma LastIndexOfCharIs(s: string, c: char, i: nat)
    requires i < |s| && s[i] == c && c !in s[i + 1..]
    ensures LastIndexOfChar(s, c) == Some(i)
  {
    var r := LastIndexOfChar(s, c);
    assert forall k | i < k < |s| :: s[i + 1..][k - i - 1] == s[k];
    assert forall k | r.value < k < |s| :: s[r.value + 1..][k - r.value - 1] == s[k];
  }

  /** `sep.join(parts)`. */
  function Join(parts: seq<string>, sep: string): string {
    if parts == [] then ""
    else if |parts| == 1 then parts[0]
    else parts[0] + sep + Join(parts[1..], sep)
  }

  lemma JoinTwo(a: string, b: string, sep: string)
    ensures Join([a, b], sep) == a + sep + b
  {
    assert [a, b][1..] == [b];
  }

  lemma JoinThree(a: string, b: string, c: string, sep: string)
    ensures Join([a, b, c], sep) == a + sep + b + sep + c
  {
    assert [a, b, c][1..] == [b, c];
    JoinTwo(b, c, sep);
  }

  /** A join of two or more parts starts with the first part and a separator, and ends with a separator and the last part. */
  lemma {:induction false} JoinEnds(parts: seq<string>, sep: string)
    requires |parts| >= 2
    ensures StartsWith(Join(parts, sep), parts[0] + sep)
    ensures EndsWith(Join(parts, sep), sep + parts[|parts| - 1])
  {
    var s := Join(parts, sep);
    var rest := Join(parts[1..], sep);
    assert s == (parts[0] + sep) + rest;
    assert s[..|parts[0] + sep|] == parts[0] + sep;
    var e := sep + parts[|parts| - 1];
    if |parts| == 2 {
      assert rest == parts[1];
      assert s == parts[0] + e;
    } else {
      JoinEnds(parts[1..], sep);
      assert rest == rest[..|rest| - |e|] + e;
      assert s == ((parts[0] + sep) + rest[..|rest| - |e|]) + e;
    }
    assert s[|s| - |e|..] == e;
  }

  /** Python's `s.split(c)` for a one-character separator: never empty, and the separator is in no part. */
  function SplitOn(s: string, c: char): (parts: seq<string>)
    ensures |parts| >= 1
    ensures forall k | 0 <= k < |parts| :: c !in parts[k]
    ensures Join(parts, [c]) == s
    decreases |s|
  {
    match IndexOfChar(s, c)
    case None => [s]
    case Some(i) =>
      var rest := SplitOn(s[i + 1..], c);
      assert s == s[..i] + [c] + s[i + 1..];
      [s[..i]] + rest
  }

  /** Splitting a join of separator-free parts gives the parts back. */
  lemma {:induction false} SplitJoin(parts: seq<string>, c: char)
    requires |parts| >= 1
    requires forall k | 0 <= k < |parts| :: c !in parts[k]
    ensures SplitOn(Join(parts, [c]), c) == parts
  {
    if |parts| > 1 {
      var s := Join(parts, [c]);
      var rest := Join(parts[1..], [c]);
      assert s == parts[0] + [c] + rest;
      assert s[..|parts[0]|] == parts[0];
      assert s[|parts[0]|] == c;
      assert IndexOfChar(s, c) == Some(|parts[0]|);
      assert s[|parts[0]| + 1..] == rest;
      SplitJoin(parts[1..], c);
    }
  }

  /** The number of white-space characters `s` starts with. */
  function LeadingSpaces(s: string): (n: nat)
    ensures n <= |s|
  {
    if s != [] && IsSpace(s[0]) then 1 + LeadingSpaces(s[1..]) else 0
  }

  /** `LeadingSpaces` counts exactly the white space before the first other character. */
  lemma {:induction false} LeadingSpacesSpec(s: string)
    ensures forall i | 0 <= i < LeadingSpaces(s) :: IsSpace(s[i])
    ensures LeadingSpaces(s) < |s| ==> !IsSpace(s[LeadingSpaces(s)])
  {
    if s != [] && IsSpace(s[0]) {
      LeadingSpacesSpec(s[1..]);
      assert forall i | 1 <= i < LeadingSpaces(s) :: s[i] == s[1..][i - 1];
    }
  }

  /** The length of `s` without its trailing white space. */
  function TrailingStart(s: string): (n: nat)
    ensures n <= |s|
  {
    if s != [] && IsSpace(s[|s| - 1]) then TrailingStart(s[..|s| - 1]) else |s|
  }

  /** Everything from `TrailingStart` on is white space, and the character before it is not. */
  lemma {:induction false} TrailingStartSpec(s: string)
    ensures forall i | TrailingStart(s) <= i < |s| :: IsSpace(s[i])
    ensures TrailingStart(s) > 0 ==> !IsSpace(s[TrailingStart(s) - 1])
  {
    if s != [] && IsSpace(s[|s| - 1]) {
      TrailingStartSpec(s[..|s| - 1]);
    }
  }

  /** Python's `s.lstrip()`. */
  function TrimLeft(s: string): string {
    s[LeadingSpaces(s)..]
  }

  /** Python's `s.rstrip()`. */
  function TrimRight(s: string): string {
    s[..TrailingStart(s)]
  }

  /** Python's `s.strip()`. */
  function Strip(s: string): string {
    TrimRight(TrimLeft(s))
  }

  lemma StripNoSpace(s: string)
    requires s == [] || (!IsSpace(s[0]) && !IsSpace(s[|s| - 1]))
    ensures Strip(s) == s
  {
    assert LeadingSpaces(s) == 0;
    assert s[0..] == s;
    assert TrailingStart(s) == |s|;
    assert s[..|s|] == s;
  }

  /** The longest prefix of `s` free of white space. */
  function TakeWord(s: string): (r: string)
    ensures StartsWith(s, r) && NoSpace(r)
    ensures |r| < |s| ==> IsSpace(s[|r|])
  {
    if s == [] || IsSpace(s[0]) then [] else [s[0]] + TakeWord(s[1..])
  }

  /** Python's `s.split()[0]`, or `None` where that raises `IndexError` (blank `s`). */
  function FirstWord(s: string): (r: Option<string>)
    ensures r.None? <==> forall i | 0 <= i < |s| :: IsSpace(s[i])
    ensures r.Some? ==> r.value != [] && NoSpace(r.value)
    ensures r.Some? ==> exists k | 0 <= k < |s| ::
      (forall j | 0 <= j < k :: IsSpace(s[j])) && OccursAt(s, r.value, k)
      && (k + |r.value| == |s| || IsSpace(s[k + |r.value|]))
  {
    LeadingSpacesSpec(s);
    var t := TrimLeft(s);
    if t == [] then None
    else
      var k, w := LeadingSpaces(s), TakeWord(t);
      assert s[k..k + |w|] == w by {
        assert t[..|w|] == w;
      }
      assert |w| < |t| ==> s[k + |w|] == t[|w|];
      assert (forall j | 0 <= j < k :: IsSpace(s[j])) && OccursAt(s, w, k)
        && (k + |w| == |s| || IsSpace(s[k + |w|]));
      Some(w)
  }

  /** `TakeWord` of a text that starts with a word followed by white space or the end is that word. */
  lemma {:induction false} TakeWordIs(s: string, w: string)
    requires NoSpace(w) && StartsWith(s, w)
    requires |s| == |w| || IsSpace(s[|w|])
    ensures TakeWord(s) == w
  {
    if w != [] {
      assert s[0] == w[0];
      assert s[1..][..|w| - 1] == w[1..];
      assert |s| > |w| ==> s[1..][|w| - 1] == s[|w|];
      TakeWordIs(s[1..], w[1..]);
    }
  }

  /** The first word of a text that starts with a word is that word. */
  lemma FirstWordOfWord(s: string, w: string)
    requires w != [] && NoSpace(w) && StartsWith(s, w)
    requires |s| == |w| || IsSpace(s[|w|])
    ensures FirstWord(s) == Some(w)
  {
    assert s[0] == w[0];
    assert s[0..] == s;
    TakeWordIs(s, w);
  }

  /** Python's `s.split(w)[1]`: the text between the first and second `w`, or `None` (`IndexError`). */
  function SecondField(s: string, w: string): (r: Option<string>)
    requires w != []
    ensures r.Some? <==> Contains(s, w)
    ensures r.Some? ==> !Contains(r.value, w)
    ensures r.Some? ==> var i := Find(s, w).value;
      OccursAt(s, r.value, i + |w|)
      && (i + |w| + |r.value| == |s| || OccursAt(s, w, i + |w| + |r.value|))
  {
    match Find(s, w)
    case None => None
    case Some(i) =>
      var rest := s[i + |w|..];
      match Find(rest, w)
      case None => Some(rest)
      case Some(j) =>
        assert !Contains(rest[..j], w) by {
          forall k: nat | OccursAt(rest[..j], w, k) ensures false {
            assert rest[k..k + |w|] == rest[..j][k..k + |w|];
            assert OccursAt(rest, w, k);
          }
        }
        Some(rest[..j])
  }

  /** The first occurrence of `w` is at `i` when `w` occurs there and nowhere before. */
  lemma FindIs(s: string, w: string, i: nat)
    requires OccursAt(s, w, i) && forall j: nat | j < i :: !OccursAt(s, w, j)
    ensures Find(s, w) == Some(i)
  {
    assert Contains(s, w);
  }

  /**
    When `w` first occurs at `i` and is followed by `t`, with no occurrence of
    `w` starting inside `t`, the second field starts with `t`, and the
    character after `t` in it is the one after `t` in `s`.
   */
  lemma SecondFieldFrom(s: string, w: string, i: nat, t: string)
    requires w != [] && OccursAt(s, w, i) && forall j: nat | j < i :: !OccursAt(s, w, j)
    requires OccursAt(s, t, i + |w|)
    requires forall j: nat | i + |w| <= j < i + |w| + |t| :: !OccursAt(s, w, j)
    ensures SecondField(s, w).Some? && StartsWith(SecondField(s, w).value, t)
    ensures var f := SecondField(s, w).value; |f| > |t| ==> f[|t|] == s[i + |w| + |t|]
  {
    FindIs(s, w, i);
    var rest := s[i + |w|..];
    assert rest[..|t|] == t;
    match Find(rest, w)
    case None =>
    case Some(j) =>
      assert rest[j..j + |w|] == s[i + |w| + j..i + |w| + j + |w|];
      assert OccursAt(s, w, i + |w| + j);
      assert j >= |t|;
      assert rest[..j][..|t|] == t;
  }

  /** A string without the character `c` contains no string that has `c` in it. */
  lemma AbsentCharNotContained(s: string, w: string, c: char)
    requires c in w && c !in s
    ensures !Contains(s, w)
  {
    var k :| 0 <= k < |w| && w[k] == c;
    forall i: nat | i <= |s| ensures !OccursAt(s, w, i) {
      if i + |w| <= |s| {
        assert s[i..i + |w|][k] == s[i + k] != c;
      }
    }
  }
}
