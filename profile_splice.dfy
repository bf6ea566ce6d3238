/**
 * The splice behind `upsert_block` (src/shell_integration.rs): a block is
 * put in place of the text running from a begin marker to the first end
 * marker after it, or appended when there is no such pair. It is stated
 * here for any pair of markers, so that its properties are proved once for
 * every pair meeting the conditions each lemma names; the program's own
 * markers are those of the ShellIntegration module.
 */
module ProfileSplice {
  import opened Wrappers
  import opened Text

  /** `s` ends with a line feed once "\n" is appended to it if it is
      non-empty and unterminated. */
  function Terminated(s: string): (r: string)
    ensures r == [] <==> s == []
    ensures r != [] ==> r[|r| - 1] == '\n'
    ensures r == s || r == s + "\n"
  {
    if s != [] && s[|s| - 1] != '\n' then s + "\n" else s
  }

  /** Where the old block lies: from the first begin marker to just past the
      first end marker after it. */
  datatype Marks = Unmarked | Marked(start: nat, stop: nat)

  /** The span the replace path cuts out, when the begin marker is followed
      by an end marker. */
  function MarkedSpan(existing: string, begin: string, end: string): (r: Marks)
    ensures r.Marked? ==> r.start + |begin| <= |existing| && r.start + |end| <= r.stop <= |existing|
    ensures r.Marked? ==> Find(existing, begin) == Some(r.start)
    ensures r.Marked? ==> Find(existing[r.start..], end) == Some(r.stop - |end| - r.start)
    ensures r.Unmarked? <==>
      (Find(existing, begin).None? || Find(existing[Find(existing, begin).value..], end).None?)
  {
    match Find(existing, begin)
    case None => Unmarked
    case Some(start) =>
      match Find(existing[start..], end)
      case None => Unmarked
      case Some(endRel) => Marked(start, start + endRel + |end|)
  }

  /** What follows the block on the replace path: nothing when only line
      feeds followed the old end marker, otherwise one "\n" and the rest
      without its leading line feeds, terminated. */
  function TrailingPart(after: string): string {
    var trailing := TrimStartBy(after, IsLineFeed);
    if trailing == [] then [] else "\n" + Terminated(trailing)
  }

  /** The pair `upsert_block` returns: the new text and whether it differs. */
  datatype Upserted = Upserted(content: string, changed: bool)

  /** `upsert_block` for the markers `begin` and `end`. */
  function Splice(existing: string, block: string, begin: string, end: string): Upserted {
    var span := MarkedSpan(existing, begin, end);
    if span.Marked? then
      var out := Terminated(existing[..span.start]) + block + TrailingPart(existing[span.stop..]);
      Upserted(out, out != existing)
    else
      Upserted((if existing == [] then [] else Terminated(existing) + "\n") + block, true)
  }

  /** The replace path, spelled out for a known span. */
  lemma SpliceReplaces(existing: string, block: string, begin: string, end: string, start: nat, stop: nat)
    requires MarkedSpan(existing, begin, end) == Marked(start, stop)
    ensures start <= stop <= |existing|
    ensures Splice(existing, block, begin, end).content
      == Terminated(existing[..start]) + block + TrailingPart(existing[stop..])
    ensures Splice(existing, block, begin, end).changed == (Splice(existing, block, begin, end).content != existing)
  {
  }

  /** Upserting into an empty profile yields exactly the block, reported as a change. */
  lemma SpliceIntoEmpty(block: string, begin: string, end: string)
    requires begin != []
    ensures Splice([], block, begin, end) == Upserted(block, true)
  {
    assert FindFrom([], begin, 0) == None;
  }

  /** Append path, taken when no begin marker is followed by an end marker:
      the existing text, one '\n' to terminate it if it is unterminated, one
      separating '\n' if it is non-empty, then the block; always a change. */
  lemma AppendPath(existing: string, block: string, begin: string, end: string)
    requires MarkedSpan(existing, begin, end).Unmarked?
    ensures Splice(existing, block, begin, end).changed
    ensures Splice(existing, block, begin, end).content == existing +
      (if existing == [] then "" else if existing[|existing| - 1] == '\n' then "\n" else "\n\n") + block
  {
  }

  /** Replace path, before the block: the text before the first begin marker
      is kept verbatim, followed by '\n' only if it is non-empty and lacks
      one, and then by the block. */
  lemma ReplacePrefix(existing: string, block: string, begin: string, end: string)
    requires MarkedSpan(existing, begin, end).Marked?
    ensures var pre := existing[..MarkedSpan(existing, begin, end).start];
      StartsWith(Splice(existing, block, begin, end).content,
        pre + (if pre != [] && pre[|pre| - 1] != '\n' then "\n" else "") + block)
  {
    var span := MarkedSpan(existing, begin, end);
    SpliceReplaces(existing, block, begin, end, span.start, span.stop);
    TerminatedThen(existing[..span.start], block, TrailingPart(existing[span.stop..]));
  }

  /** `Terminated(pre) + block + tail` starts with `pre`, then the line feed
      `Terminated` adds, if any, then `block`. */
  lemma TerminatedThen(pre: string, block: string, tail: string)
    ensures StartsWith(Terminated(pre) + block + tail,
      pre + (if pre != [] && pre[|pre| - 1] != '\n' then "\n" else "") + block)
  {
    var head := Terminated(pre) + block;
    assert Terminated(pre) == pre + (if pre != [] && pre[|pre| - 1] != '\n' then "\n" else "");
    assert (head + tail)[..|head|] == head;
  }

  /** Replace path, after the block (`head` is everything up to the block's
      end): nothing when only line feeds followed the old end marker;
      otherwise exactly one '\n', the rest with its leading line feeds
      removed, and a final '\n'. */
  lemma HeadThenTrailing(head: string, after: string)
    ensures var trailing := TrimStartBy(after, IsLineFeed);
      var out := head + TrailingPart(after);
      && StartsWith(out, head)
      && (trailing == [] ==> out == head)
      && (trailing != [] ==> out == head + "\n" + Terminated(trailing) && out[|out| - 1] == '\n'
                             && out[|head|] == '\n' && out[|head| + 1] != '\n')
  {
    var trailing := TrimStartBy(after, IsLineFeed);
    if trailing != [] {
      assert !IsLineFeed(trailing[0]);
      HeadThenLine(head, trailing);
    } else {
      assert head + TrailingPart(after) == head + [];
    }
  }

  /** `head`, a line feed, and a terminated text not starting with a line feed. */
  lemma HeadThenLine(head: string, trailing: string)
    requires trailing != [] && trailing[0] != '\n'
    ensures var out := head + ("\n" + Terminated(trailing));
      && out == head + "\n" + Terminated(trailing)
      && StartsWith(out, head)
      && out[|out| - 1] == '\n' && out[|head|] == '\n' && out[|head| + 1] != '\n'
  {
    var t := Terminated(trailing);
    var out := head + ("\n" + t);
    assert out[..|head|] == head;
    assert out[|head| + 1] == t[0] == trailing[0];
  }

  /** Replace path: the change flag says exactly whether the text differs. */
  lemma ReplaceChangedIff(existing: string, block: string, begin: string, end: string)
    requires MarkedSpan(existing, begin, end).Marked?
    ensures Splice(existing, block, begin, end).changed <==> Splice(existing, block, begin, end).content != existing
  {
  }

  // ---------------------------------------------------------------------
  // Idempotence

  /** What idempotence needs of a block: it begins with the begin marker, and
      nothing but line feeds follows its first end marker. */
  predicate BlockShape(block: string, begin: string, end: string) {
    && StartsWith(block, begin)
    && Find(block, end).Some?
    && forall i :: Find(block, end).value + |end| <= i < |block| ==> block[i] == '\n'
  }

  /** A text in which the first begin marker has an end marker after it (or
      there is no begin marker at all). */
  predicate NoStrayBegin(existing: string, begin: string, end: string) {
    Find(existing, begin).None? || MarkedSpan(existing, begin, end).Marked?
  }

  /** Upserting the same block a second time changes nothing: the content is
      identical and the change flag is false. */
  lemma SpliceIdempotent(existing: string, block: string, begin: string, end: string)
    requires begin != [] && '\n' !in begin
    requires BlockShape(block, begin, end)
    requires NoStrayBegin(existing, begin, end)
    ensures var first := Splice(existing, block, begin, end).content;
      Splice(first, block, begin, end) == Upserted(first, false)
  {
    var span := MarkedSpan(existing, begin, end);
    if span.Marked? {
      IdempotentAfterReplace(existing, block, begin, end, span.start, span.stop);
    } else {
      IdempotentAfterAppend(existing, block, begin, end);
    }
  }

  /** Idempotence when the first upsert replaced an old block. */
  lemma IdempotentAfterReplace(existing: string, block: string, begin: string, end: string, start: nat, stop: nat)
    requires begin != [] && '\n' !in begin
    requires BlockShape(block, begin, end)
    requires MarkedSpan(existing, begin, end) == Marked(start, stop)
    ensures var first := Splice(existing, block, begin, end).content;
      Splice(first, block, begin, end) == Upserted(first, false)
  {
    SpliceReplaces(existing, block, begin, end, start, stop);
    var prefix, tail, e := ReplacedPieces(existing, block, begin, end, start, stop);
    PlacedIdempotent(prefix, block, tail, begin, end, e);
  }

  /** The text a replace leaves is a terminated, marker-free prefix, the
      block, and a tail a further replace rebuilds. */
  lemma ReplacedPieces(existing: string, block: string, begin: string, end: string, start: nat, stop: nat)
      returns (prefix: string, tail: string, e: nat)
    requires begin != [] && '\n' !in begin
    requires BlockShape(block, begin, end)
    requires MarkedSpan(existing, begin, end) == Marked(start, stop)
    ensures prefix == Terminated(existing[..start]) && tail == TrailingPart(existing[stop..])
    ensures prefix == [] || prefix[|prefix| - 1] == '\n'
    ensures Find(prefix, begin).None?
    ensures e == Find(block, end).value + |end| <= |block|
    ensures TrailingPart(block[e..] + tail) == tail
  {
    e := Find(block, end).value + |end|;
    prefix := Terminated(existing[..start]);
    tail := TrailingPart(existing[stop..]);
    PrefixHasNoBegin(existing, start, begin);
    BlockFeeds(block, e);
    FeedsKeepTrailing(block[e..], existing[stop..]);
  }

  /** Idempotence when the first upsert appended the block. */
  lemma IdempotentAfterAppend(existing: string, block: string, begin: string, end: string)
    requires begin != [] && '\n' !in begin
    requires BlockShape(block, begin, end)
    requires Find(existing, begin).None?
    ensures var first := Splice(existing, block, begin, end).content;
      Splice(first, block, begin, end) == Upserted(first, false)
  {
    var e := Find(block, end).value + |end|;
    assert e <= |block|;
    var prefix := if existing == [] then [] else Terminated(existing) + "\n";
    AppendedPrefix(existing, begin);
    BlockFeeds(block, e);
    FeedsLeaveNothing(block[e..]);
    assert block[e..] + [] == block[e..];
    SpliceAppends(existing, block, begin, end);
    assert prefix + block + [] == prefix + block;
    PlacedIdempotent(prefix, block, [], begin, end, e);
  }

  /** What the append path puts before the block is terminated and holds no
      begin marker. */
  lemma AppendedPrefix(existing: string, begin: string)
    requires '\n' !in begin
    requires Find(existing, begin).None?
    ensures var prefix := if existing == [] then [] else Terminated(existing) + "\n";
      && (prefix == [] || prefix[|prefix| - 1] == '\n')
      && Find(prefix, begin).None?
  {
    if existing != [] {
      TerminatedHasNo(existing, begin);
      NoneAfterAppend(Terminated(existing), '\n', begin);
    } else {
      assert FindFrom([], begin, 0).None?;
    }
  }

  /** The append path, spelled out. */
  lemma SpliceAppends(existing: string, block: string, begin: string, end: string)
    requires Find(existing, begin).None?
    ensures Splice(existing, block, begin, end).content
      == (if existing == [] then [] else Terminated(existing) + "\n") + block
  {
  }

  /** A block placed after a terminated, marker-free prefix, followed by a
      tail that the replace path keeps as it is, is left unchanged by a
      further upsert. */
  lemma PlacedIdempotent(prefix: string, block: string, tail: string, begin: string, end: string, e: nat)
    requires '\n' !in begin
    requires prefix == [] || prefix[|prefix| - 1] == '\n'
    requires Find(prefix, begin).None?
    requires StartsWith(block, begin) && Find(block, end).Some?
    requires e == Find(block, end).value + |end| <= |block|
    requires TrailingPart(block[e..] + tail) == tail
    ensures Splice(prefix + block + tail, block, begin, end) == Upserted(prefix + block + tail, false)
  {
    PlacedPieces(prefix, block, tail, begin, end, e);
    SpliceKept(prefix + block + tail, block, begin, end, |prefix|, |prefix| + e, prefix, tail);
  }

  /** In `prefix + block + tail`, the replace path finds the block and keeps
      `prefix` before it and `tail` after it. */
  lemma PlacedPieces(prefix: string, block: string, tail: string, begin: string, end: string, e: nat)
    requires '\n' !in begin
    requires prefix == [] || prefix[|prefix| - 1] == '\n'
    requires Find(prefix, begin).None?
    requires StartsWith(block, begin) && Find(block, end).Some?
    requires e == Find(block, end).value + |end| <= |block|
    requires TrailingPart(block[e..] + tail) == tail
    ensures var s := prefix + block + tail;
      && MarkedSpan(s, begin, end) == Marked(|prefix|, |prefix| + e)
      && |prefix| + e <= |s| && Terminated(s[..|prefix|]) == prefix && TrailingPart(s[|prefix| + e..]) == tail
  {
    SpanOfPlacedBlock(prefix, block, tail, begin, end);
    PlacedSlices(prefix, block, tail, e);
  }

  /** When the replace path keeps `head` before the block and `rest` after
      it, and those rebuild the text, the splice reports no change. */
  lemma SpliceKept(s: string, block: string, begin: string, end: string, start: nat, stop: nat,
                   head: string, rest: string)
    requires MarkedSpan(s, begin, end) == Marked(start, stop)
    requires stop <= |s| && Terminated(s[..start]) == head && TrailingPart(s[stop..]) == rest
    requires head + block + rest == s
    ensures Splice(s, block, begin, end) == Upserted(s, false)
  {
    SpliceReplaces(s, block, begin, end, start, stop);
  }

  /** Line feeds alone leave no trailing part. */
  lemma FeedsLeaveNothing(feeds: string)
    requires forall i :: 0 <= i < |feeds| ==> feeds[i] == '\n'
    ensures TrailingPart(feeds) == []
  {
    TrimStartBySuffix(feeds, IsLineFeed);
  }

  /** Line feeds put before a trailing part are absorbed when the trailing
      part is computed again. */
  lemma FeedsKeepTrailing(feeds: string, after: string)
    requires forall i :: 0 <= i < |feeds| ==> feeds[i] == '\n'
    ensures TrailingPart(feeds + TrailingPart(after)) == TrailingPart(after)
  {
    var t := TrimStartBy(after, IsLineFeed);
    if t == [] {
      assert TrailingPart(after) == [];
      assert feeds + [] == feeds;
      FeedsLeaveNothing(feeds);
    } else {
      var rest := Terminated(t);
      assert rest[0] == t[0] && !IsLineFeed(rest[0]);
      assert TrailingPart(after) == "\n" + rest;
      FeedsThenLine(feeds, rest);
    }
  }

  /** Line feeds, one more, and a terminated text not starting with a line
      feed: the trailing part is that line feed and the text. */
  lemma FeedsThenLine(feeds: string, rest: string)
    requires forall i :: 0 <= i < |feeds| ==> feeds[i] == '\n'
    requires rest != [] && rest[0] != '\n' && rest[|rest| - 1] == '\n'
    ensures TrailingPart(feeds + ("\n" + rest)) == "\n" + rest
  {
    var a := feeds + "\n";
    var x := a + rest;
    assert x == feeds + ("\n" + rest);
    assert forall i :: 0 <= i < |a| ==> IsLineFeed(a[i]);
    TrimStartByPrefix(a, rest, IsLineFeed);
    TrailingOfTrimmed(x, rest);
  }

  /** The trailing part of a text whose leading line feeds leave a
      terminated `rest`. */
  lemma TrailingOfTrimmed(x: string, rest: string)
    requires TrimStartBy(x, IsLineFeed) == rest
    requires rest != [] && rest[|rest| - 1] == '\n'
    ensures TrailingPart(x) == "\n" + rest
  {
  }

  /** The text before the first begin marker holds none, even terminated. */
  lemma PrefixHasNoBegin(existing: string, start: nat, begin: string)
    requires begin != [] && '\n' !in begin
    requires Find(existing, begin) == Some(start)
    ensures Find(Terminated(existing[..start]), begin).None?
  {
    var pre := existing[..start];
    forall j | 0 <= j
      ensures !OccursAt(pre, begin, j)
    {
      if j + |begin| <= |pre| {
        assert j < start;
        assert !OccursAt(existing, begin, j);
        assert pre[j..j + |begin|] == existing[j..j + |begin|];
      }
    }
    TerminatedHasNo(pre, begin);
  }

  /** Terminating a text creates no occurrence of a pattern without line feeds. */
  lemma TerminatedHasNo(s: string, begin: string)
    requires '\n' !in begin
    requires Find(s, begin).None?
    ensures Find(Terminated(s), begin).None?
  {
    if Terminated(s) != s {
      NoneAfterAppend(s, '\n', begin);
      assert Terminated(s) == s + ['\n'];
    }
  }

  /** The begin marker of a block placed after a marker-free, terminated
      prefix is the first one of the text. */
  lemma BlockBeginFound(prefix: string, block: string, tail: string, begin: string)
    requires '\n' !in begin
    requires prefix == [] || prefix[|prefix| - 1] == '\n'
    requires Find(prefix, begin).None?
    requires StartsWith(block, begin)
    ensures Find(prefix + block + tail, begin) == Some(|prefix|)
  {
    var s := prefix + block + tail;
    assert s[|prefix|..|prefix| + |begin|] == block[..|begin|];
    forall j | 0 <= j < |prefix|
      ensures !OccursAt(s, begin, j)
    {
      assert !OccursAt(prefix, begin, j);
      if j + |begin| <= |prefix| {
        assert s[j..j + |begin|] == prefix[j..j + |begin|];
      } else if j + |begin| <= |s| {
        assert s[j..j + |begin|][|prefix| - 1 - j] == s[|prefix| - 1] == '\n';
      }
    }
    FindIs(s, begin, |prefix|);
  }

  /** In `prefix + block + tail`, the marked span is the block's own, up to
      its first end marker. */
  lemma SpanOfPlacedBlock(prefix: string, block: string, tail: string, begin: string, end: string)
    requires '\n' !in begin
    requires prefix == [] || prefix[|prefix| - 1] == '\n'
    requires Find(prefix, begin).None?
    requires StartsWith(block, begin) && Find(block, end).Some?
    ensures MarkedSpan(prefix + block + tail, begin, end)
      == Marked(|prefix|, |prefix| + (Find(block, end).value + |end|))
  {
    var s := prefix + block + tail;
    BlockBeginFound(prefix, block, tail, begin);
    assert s[|prefix|..] == block + tail;
    FindExtends(block, tail, end);
  }

  /** The two pieces of `prefix + block + tail` the replace path keeps. */
  lemma PlacedSlices(prefix: string, block: string, tail: string, e: nat)
    requires e <= |block|
    requires prefix == [] || prefix[|prefix| - 1] == '\n'
    ensures var s := prefix + block + tail;
      Terminated(s[..|prefix|]) == prefix && s[|prefix| + e..] == block[e..] + tail
  {
    var s := prefix + block + tail;
    assert s[..|prefix|] == prefix;
    assert s[|prefix| + e..] == block[e..] + tail;
  }

  /** The line feeds that end a block, as a text of their own. */
  lemma BlockFeeds(block: string, e: nat)
    requires e <= |block|
    requires forall i :: e <= i < |block| ==> block[i] == '\n'
    ensures forall i :: 0 <= i < |block[e..]| ==> block[e..][i] == '\n'
  {
    assert forall i :: 0 <= i < |block[e..]| ==> block[e..][i] == block[e + i];
  }
}
