/**
 * The handful of Rust `str` operations the program relies on, written out
 * so that their edge cases are part of the model: `trim`, `trim_matches`,
 * `trim_start_matches`, `trim_end_matches`, `to_ascii_lowercase`, `find`,
 * `contains`, `lines` and `join`.
 */
module Text {
  import opened Wrappers

  /** Rust's `char::is_whitespace`: the Unicode White_Space property. */
  predicate IsWhitespace(c: char) {
    || ('\t' <= c <= '\r')   // tab, line feed, vertical tab, form feed, carriage return
    || c == ' '
    || c == '\U{0085}' || c == '\U{00A0}' || c == '\U{1680}'
    || ('\U{2000}' <= c <= '\U{200A}')
    || c == '\U{2028}' || c == '\U{2029}' || c == '\U{202F}' || c == '\U{205F}'
    || c == '\U{3000}'
  }

  predicate IsSlash(c: char) { c == '/' }
  predicate IsBacktick(c: char) { c == '`' }
  predicate IsLineFeed(c: char) { c == '\n' }

  /** A string that `trim` reduces to the empty string. */
  predicate IsBlank(s: string) {
    forall i :: 0 <= i < |s| ==> IsWhitespace(s[i])
  }

  predicate StartsWith(s: string, prefix: string) {
    |prefix| <= |s| && s[..|prefix|] == prefix
  }

  predicate EndsWith(s: string, suffix: string) {
    |suffix| <= |s| && s[|s| - |suffix|..] == suffix
  }

  /** `trim_start_matches(p)`: drop the longest prefix whose characters satisfy `p`. */
  function TrimStartBy(s: string, p: char -> bool): (r: string)
    ensures |r| <= |s|
    ensures r != [] ==> !p(r[0])
    decreases |s|
  {
    if s != [] && p(s[0]) then TrimStartBy(s[1..], p) else s
  }

  /** `trim_end_matches(p)`: drop the longest suffix whose characters satisfy `p`. */
  function TrimEndBy(s: string, p: char -> bool): (r: string)
    ensures |r| <= |s|
    ensures r != [] ==> !p(r[|r| - 1])
    decreases |s|
  {
    if s != [] && p(s[|s| - 1]) then TrimEndBy(s[..|s| - 1], p) else s
  }

  /** What `TrimStartBy` keeps is a suffix of its input. (Kept out of the
      function's contract: stated there, it sets the solver rewriting
      slices of slices wherever a trimmed text meets its source.) */
  lemma {:induction false} TrimStartBySuffix(s: string, p: char -> bool)
    ensures TrimStartBy(s, p) == s[|s| - |TrimStartBy(s, p)|..]
    decreases |s|
  {
    if s != [] && p(s[0]) {
      TrimStartBySuffix(s[1..], p);
      assert s[1..][|s[1..]| - |TrimStartBy(s, p)|..] == s[|s| - |TrimStartBy(s, p)|..];
    }
  }

  /** What `TrimEndBy` keeps is a prefix of its input. */
  lemma {:induction false} TrimEndByPrefix(s: string, p: char -> bool)
    ensures TrimEndBy(s, p) == s[..|TrimEndBy(s, p)|]
    decreases |s|
  {
    if s != [] && p(s[|s| - 1]) {
      TrimEndByPrefix(s[..|s| - 1], p);
      assert s[..|s| - 1][..|TrimEndBy(s, p)|] == s[..|TrimEndBy(s, p)|];
    }
  }

  /** Everything `TrimStartBy` drops satisfies `p`. */
  lemma {:induction false} TrimStartByDrops(s: string, p: char -> bool)
    ensures forall i :: 0 <= i < |s| - |TrimStartBy(s, p)| ==> p(s[i])
    decreases |s|
  {
    if s != [] && p(s[0]) {
      TrimStartByDrops(s[1..], p);
      forall i | 1 <= i < |s| - |TrimStartBy(s, p)|
        ensures p(s[i])
      {
        assert s[i] == s[1..][i - 1];
      }
    }
  }

  /** Everything `TrimEndBy` drops satisfies `p`. */
  lemma {:induction false} TrimEndByDrops(s: string, p: char -> bool)
    ensures forall i :: |TrimEndBy(s, p)| <= i < |s| ==> p(s[i])
    decreases |s|
  {
    if s != [] && p(s[|s| - 1]) {
      TrimEndByDrops(s[..|s| - 1], p);
      forall i | |TrimEndBy(s, p)| <= i < |s| - 1
        ensures p(s[i])
      {
        assert s[i] == s[..|s| - 1][i];
      }
    }
  }

  /** `trim_matches(p)`: both ends. */
  function TrimBy(s: string, p: char -> bool): string {
    TrimEndBy(TrimStartBy(s, p), p)
  }

  /** `trim` */
  function Trim(s: string): string {
    TrimBy(s, IsWhitespace)
  }

  /** Trimming both ends keeps a contiguous part of the string. */
  lemma TrimBySlice(s: string, p: char -> bool)
    ensures var k := |s| - |TrimStartBy(s, p)|;
      k + |TrimBy(s, p)| <= |s| && TrimBy(s, p) == s[k..k + |TrimBy(s, p)|]
  {
    var t := TrimStartBy(s, p);
    var r := TrimEndBy(t, p);
    TrimStartBySuffix(s, p);
    TrimEndByPrefix(t, p);
    PrefixOfSuffix(s, t, r, |s| - |t|);
  }

  /** A prefix of a suffix is a slice. */
  lemma PrefixOfSuffix(s: string, t: string, r: string, k: nat)
    requires k <= |s| && t == s[k..]
    requires |r| <= |t| && r == t[..|r|]
    ensures k + |r| <= |s| && r == s[k..k + |r|]
  {
  }

  /** Trimming adds no character: one absent from the string is absent from the result. */
  lemma TrimByKeepsAbsent(s: string, p: char -> bool, c: char)
    requires c !in s
    ensures c !in TrimBy(s, p)
  {
    TrimBySlice(s, p);
  }

  /** A string that neither starts nor ends with a trimmed character is left as it is. */
  lemma TrimByNoop(s: string, p: char -> bool)
    requires s != [] ==> !p(s[0]) && !p(s[|s| - 1])
    ensures TrimBy(s, p) == s
  {
  }

  /** A prefix of trimmed characters before a kept one is exactly what is dropped. */
  lemma {:induction false} TrimStartByPrefix(a: string, b: string, p: char -> bool)
    requires forall i :: 0 <= i < |a| ==> p(a[i])
    requires b != [] && !p(b[0])
    ensures TrimStartBy(a + b, p) == b
    decreases |a|
  {
    var s := a + b;
    if a != [] {
      assert s[0] == a[0] && p(s[0]);
      assert s[1..] == a[1..] + b;
      assert TrimStartBy(s, p) == TrimStartBy(s[1..], p);
      TrimStartByPrefix(a[1..], b, p);
    } else {
      assert s == b;
    }
  }

  /** A suffix of trimmed characters after a kept one is exactly what is dropped. */
  lemma {:induction false} TrimEndBySuffix(a: string, b: string, p: char -> bool)
    requires a != [] && !p(a[|a| - 1])
    requires forall i :: 0 <= i < |b| ==> p(b[i])
    ensures TrimEndBy(a + b, p) == a
    decreases |b|
  {
    var s := a + b;
    if b != [] {
      assert s[|s| - 1] == b[|b| - 1] && p(s[|s| - 1]);
      assert s[..|s| - 1] == a + b[..|b| - 1];
      assert TrimEndBy(s, p) == TrimEndBy(s[..|s| - 1], p);
      TrimEndBySuffix(a, b[..|b| - 1], p);
    } else {
      assert s == a;
    }
  }

  /** Trimming both ends of `a + m + c` leaves `m` when `a` and `c` are made
      of trimmed characters and `m` starts and ends with kept ones. */
  lemma TrimByWrapped(a: string, m: string, c: string, p: char -> bool)
    requires forall i :: 0 <= i < |a| ==> p(a[i])
    requires forall i :: 0 <= i < |c| ==> p(c[i])
    requires m != [] && !p(m[0]) && !p(m[|m| - 1])
    ensures TrimBy(a + m + c, p) == m
  {
    assert a + m + c == a + (m + c);
    TrimStartByPrefix(a, m + c, p);
    TrimEndBySuffix(m, c, p);
  }

  /** What `trim` leaves is empty exactly for a blank string, and otherwise
      neither starts nor ends with whitespace. */
  lemma TrimShape(s: string)
    ensures Trim(s) == [] <==> IsBlank(s)
    ensures Trim(s) != [] ==> !IsWhitespace(Trim(s)[0]) && !IsWhitespace(Trim(s)[|Trim(s)| - 1])
  {
    TrimByShape(s, IsWhitespace);
  }

  /** `TrimShape` for any predicate. */
  lemma TrimByShape(s: string, p: char -> bool)
    ensures TrimBy(s, p) == [] <==> forall i :: 0 <= i < |s| ==> p(s[i])
    ensures TrimBy(s, p) != [] ==> !p(TrimBy(s, p)[0]) && !p(TrimBy(s, p)[|TrimBy(s, p)| - 1])
  {
    var t := TrimStartBy(s, p);
    var r := TrimEndBy(t, p);
    TrimStartByDrops(s, p);
    TrimEndByDrops(t, p);
    if t != [] {
      TrimStartBySuffix(s, p);
      TrimEndByPrefix(t, p);
      assert t[0] == s[|s| - |t|] && !p(t[0]);
      assert r != [] && r[0] == t[0];
    }
  }

  /** Trimming twice is trimming once. */
  lemma TrimIdempotent(s: string)
    ensures Trim(Trim(s)) == Trim(s)
  {
    TrimShape(s);
    TrimByNoop(Trim(s), IsWhitespace);
  }

  function LowerChar(c: char): (d: char)
    ensures 'A' <= c <= 'Z' ==> 'a' <= d <= 'z' && d as int - c as int == 32
    ensures !('A' <= c <= 'Z') ==> d == c
  {
    if 'A' <= c <= 'Z' then (c as int + 32) as char else c
  }

  /** `to_ascii_lowercase` */
  function ToAsciiLower(s: string): (r: string)
    ensures |r| == |s| && forall i :: 0 <= i < |s| ==> r[i] == LowerChar(s[i])
  {
    seq(|s|, i requires 0 <= i < |s| => LowerChar(s[i]))
  }

  predicate HasNoUpper(s: string) {
    forall i :: 0 <= i < |s| ==> !('A' <= s[i] <= 'Z')
  }

  /** Lower-casing leaves a string without ASCII capitals alone, and it is idempotent. */
  lemma LowerOfLower(s: string)
    ensures HasNoUpper(s) ==> ToAsciiLower(s) == s
    ensures HasNoUpper(ToAsciiLower(s))
    ensures ToAsciiLower(ToAsciiLower(s)) == ToAsciiLower(s)
  {
  }

  /** `pat` occurs in `s` starting at index `i`. */
  predicate OccursAt(s: string, pat: string, i: int) {
    0 <= i && i + |pat| <= |s| && s[i..i + |pat|] == pat
  }

  /** The first occurrence of `pat` in `s` at or after index `from`. */
  function FindFrom(s: string, pat: string, from: nat): (r: Option<nat>)
    ensures r.Some? ==> from <= r.value && OccursAt(s, pat, r.value)
    ensures r.Some? ==> forall j :: from <= j < r.value ==> !OccursAt(s, pat, j)
    ensures r.None? ==> forall j :: from <= j ==> !OccursAt(s, pat, j)
    decreases |s| - from
  {
    if from + |pat| > |s| then None
    else if s[from..from + |pat|] == pat then Some(from)
    else FindFrom(s, pat, from + 1)
  }

  /** `str::find`: the index of the first occurrence (counted in characters). */
  function Find(s: string, pat: string): Option<nat> {
    FindFrom(s, pat, 0)
  }

  /** `str::contains` */
  predicate Contains(s: string, pat: string) {
    Find(s, pat).Some?
  }

  /** `contains` holds exactly when some occurrence exists. */
  lemma ContainsIff(s: string, pat: string, i: int)
    requires OccursAt(s, pat, i)
    ensures Contains(s, pat) && Find(s, pat).value <= i
  {
  }

  /** An occurrence found at a known index is the first one when none precedes it. */
  lemma FindIs(s: string, pat: string, i: nat)
    requires OccursAt(s, pat, i)
    requires forall j :: 0 <= j < i ==> !OccursAt(s, pat, j)
    ensures Find(s, pat) == Some(i)
  {
  }

  /** A pattern holding a character the string lacks does not occur in it. */
  lemma NotContainedByChar(s: string, pat: string, c: char)
    requires c in pat && c !in s
    ensures !Contains(s, pat)
  {
  }

  /** An occurrence is the first one when the character the pattern has at
      offset `k` appears nowhere before that offset of the occurrence. */
  lemma FindFirstBy(s: string, pat: string, i: nat, k: nat)
    requires OccursAt(s, pat, i) && k < |pat|
    requires forall j :: 0 <= j < i + k ==> s[j] != pat[k]
    ensures Find(s, pat) == Some(i)
  {
    forall j | 0 <= j < i
      ensures !OccursAt(s, pat, j)
    {
      if j + |pat| <= |s| {
        assert s[j..j + |pat|][k] == s[j + k];
      }
    }
    FindIs(s, pat, i);
  }

  /** The first occurrence in `b` stays the first one when text is appended. */
  lemma FindExtends(b: string, t: string, pat: string)
    requires Find(b, pat).Some?
    ensures Find(b + t, pat) == Find(b, pat)
  {
    var e := Find(b, pat).value;
    assert (b + t)[e..e + |pat|] == b[e..e + |pat|];
    forall j | 0 <= j < e
      ensures !OccursAt(b + t, pat, j)
    {
      assert !OccursAt(b, pat, j);
      assert j + |pat| <= |b|;
      assert (b + t)[j..j + |pat|] == b[j..j + |pat|];
    }
    FindIs(b + t, pat, e);
  }

  /** Appending a character the pattern lacks creates no occurrence. */
  lemma NoneAfterAppend(s: string, c: char, pat: string)
    requires Find(s, pat).None? && c !in pat
    ensures Find(s + [c], pat).None?
  {
    forall j | 0 <= j
      ensures !OccursAt(s + [c], pat, j)
    {
      if j + |pat| <= |s| {
        assert (s + [c])[j..j + |pat|] == s[j..j + |pat|];
        assert !OccursAt(s, pat, j);
      } else if j + |pat| == |s| + 1 && |pat| > 0 {
        assert (s + [c])[j + |pat| - 1] == c;
        assert pat[|pat| - 1] in pat;
      }
    }
  }

  /** A string containing `pat` still does once text is added on either side. */
  lemma ContainsWithin(a: string, t: string, c: string, pat: string)
    requires Contains(t, pat)
    ensures Contains(a + t + c, pat)
  {
    var i := Find(t, pat).value;
    assert (a + t + c)[|a| + i..|a| + i + |pat|] == t[i..i + |pat|];
    ContainsIff(a + t + c, pat, |a| + i);
  }

  /** A string contains itself. */
  lemma ContainsSelf(pat: string)
    ensures Contains(pat, pat)
  {
    assert pat[0..|pat|] == pat;
    ContainsIff(pat, pat, 0);
  }

  /** An occurrence survives appending text on the right. */
  lemma ContainsLeft(s: string, t: string, pat: string)
    requires Contains(s, pat)
    ensures Contains(s + t, pat)
  {
    ContainsWithin([], s, t, pat);
    assert [] + s + t == s + t;
  }

  /** An occurrence survives prepending text on the left. */
  lemma ContainsRight(s: string, t: string, pat: string)
    requires Contains(t, pat)
    ensures Contains(s + t, pat)
  {
    ContainsWithin(s, t, [], pat);
    assert s + t + [] == s + t;
  }

  /** A prefix stays a prefix when text is appended. */
  lemma StartsWithLeft(s: string, t: string, prefix: string)
    requires StartsWith(s, prefix)
    ensures StartsWith(s + t, prefix)
  {
    assert (s + t)[..|prefix|] == s[..|prefix|];
  }

  /** The index of the first `c` in `s`. */
  function IndexOf(s: string, c: char): (r: Option<nat>)
    ensures r.Some? ==> r.value < |s| && s[r.value] == c && c !in s[..r.value]
    ensures r.None? ==> c !in s
  {
    if s == [] then None
    else if s[0] == c then Some(0)
    else match IndexOf(s[1..], c)
      case None => None
      case Some(k) => assert s[1..][..k] == s[1..k + 1]; Some(k + 1)
  }

  /** One line as `str::lines` yields it: a final carriage return before the
      line feed is dropped. */
  function StripCarriageReturn(line: string): string {
    if line != [] && line[|line| - 1] == '\r' then line[..|line| - 1] else line
  }

  /** `str::lines`: split at '\n' (dropping a "\r" before it); a final line
      feed does not start another line, and the empty string has no lines. */
  function Lines(s: string): (r: seq<string>)
    ensures forall i :: 0 <= i < |r| ==> '\n' !in r[i]
    ensures s != [] ==> r != []
    decreases |s|
  {
    if s == [] then []
    else match IndexOf(s, '\n')
      case None => [s]
      case Some(k) => [StripCarriageReturn(s[..k])] + Lines(s[k + 1..])
  }

  /** `find(|line| !line.trim().is_empty())` */
  function FirstNonBlank(lines: seq<string>): (r: Option<string>)
    ensures r.Some? ==> !IsBlank(r.value)
    ensures r.Some? ==>
      exists i :: 0 <= i < |lines| && lines[i] == r.value && forall j :: 0 <= j < i ==> IsBlank(lines[j])
    ensures r.None? ==> forall i :: 0 <= i < |lines| ==> IsBlank(lines[i])
  {
    if lines == [] then None
    else if !IsBlank(lines[0]) then Some(lines[0])
    else
      var r := FirstNonBlank(lines[1..]);
      if r.Some? then FirstAfterBlank(lines, r.value); r else r
  }

  /** The entry `v`, preceded only by blank entries in `lines[1..]`, is
      preceded only by blank entries in `lines` when `lines[0]` is blank. */
  lemma FirstAfterBlank(lines: seq<string>, v: string)
    requires lines != [] && IsBlank(lines[0])
    requires exists k :: 0 <= k < |lines[1..]| && lines[1..][k] == v && forall j :: 0 <= j < k ==> IsBlank(lines[1..][j])
    ensures exists i :: 0 <= i < |lines| && lines[i] == v && forall j :: 0 <= j < i ==> IsBlank(lines[j])
  {
    var k :| 0 <= k < |lines[1..]| && lines[1..][k] == v && forall j :: 0 <= j < k ==> IsBlank(lines[1..][j]);
    forall j | 1 <= j < k + 1
      ensures IsBlank(lines[j])
    {
      assert lines[j] == lines[1..][j - 1];
    }
    assert lines[k + 1] == v;
  }

  /** Blank lines before index `n` are skipped over. */
  lemma {:induction false} FirstNonBlankFrom(lines: seq<string>, n: nat)
    requires n <= |lines|
    requires forall j :: 0 <= j < n ==> IsBlank(lines[j])
    ensures FirstNonBlank(lines) == FirstNonBlank(lines[n..])
    decreases n
  {
    if n > 0 {
      FirstNonBlankFrom(lines[1..], n - 1);
      assert lines[1..][n - 1..] == lines[n..];
    }
  }

  /** `join(sep)` */
  function Join(parts: seq<string>, sep: string): string
    decreases |parts|
  {
    if parts == [] then []
    else if |parts| == 1 then parts[0]
    else parts[0] + sep + Join(parts[1..], sep)
  }

  /** `join` puts the separator between consecutive parts only: joining
      `parts + [last]` is joining `parts`, the separator, then `last`. */
  lemma {:induction false} JoinSnoc(parts: seq<string>, last: string, sep: string)
    requires parts != []
    ensures Join(parts + [last], sep) == Join(parts, sep) + sep + last
    decreases |parts|
  {
    var s := parts + [last];
    assert s[0] == parts[0];
    if |parts| == 1 {
      assert s[1..] == [last];
    } else {
      assert s[1..] == parts[1..] + [last];
      JoinSnoc(parts[1..], last, sep);
    }
  }

  /** `lines` undoes a join: for text without carriage returns, joining its
      lines with line feeds gives the text back, less a final line feed. */
  lemma {:induction false} LinesJoin(s: string)
    requires '\r' !in s
    ensures Join(Lines(s), "\n") + (if EndsWith(s, "\n") then "\n" else "") == s
    decreases |s|
  {
    if s != [] {
      match IndexOf(s, '\n')
      case None =>
        assert s[|s| - 1] in s;
      case Some(k) =>
        var rest := s[k + 1..];
        SplitAtLineFeed(s, k);
        LinesJoin(rest);
        if rest != [] {
          JoinCons(s[..k], Lines(rest), "\n");
          EndsWithOfSuffix(s, k);
        }
    }
  }

  /** Splitting at the first line feed `k` of a text without carriage
      returns: the first line is `s[..k]` as it is, and the rest has no
      carriage return either. */
  lemma SplitAtLineFeed(s: string, k: nat)
    requires '\r' !in s && k < |s| && s[k] == '\n'
    ensures s == s[..k] + "\n" + s[k + 1..]
    ensures StripCarriageReturn(s[..k]) == s[..k]
    ensures '\r' !in s[k + 1..]
    ensures s[k + 1..] == [] ==> EndsWith(s, "\n")
  {
    if k > 0 {
      assert s[..k][k - 1] == s[k - 1];
    }
  }

  /** `join` of at least two parts starts with the first part and a separator. */
  lemma JoinCons(a: string, parts: seq<string>, sep: string)
    requires parts != []
    ensures Join([a] + parts, sep) == a + sep + Join(parts, sep)
  {
    assert ([a] + parts)[1..] == parts;
  }

  /** A text ends with a line feed exactly when its non-empty tail after `k` does. */
  lemma EndsWithOfSuffix(s: string, k: nat)
    requires k + 1 < |s|
    ensures EndsWith(s, "\n") == EndsWith(s[k + 1..], "\n")
  {
    assert s[|s| - 1..] == s[k + 1..][|s[k + 1..]| - 1..];
  }
}
