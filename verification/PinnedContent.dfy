/** Checking a code-search fragment against the file at the pinned commit, and its line range. */
module PinnedContent {
  import opened Basics
  import opened Utf8
  import opened Substrings

  const U32_MAX: nat := 0xFFFF_FFFF

  /** Half-open character positions inside the fragment. */
  datatype Occurrence = Occurrence(start: nat, end: nat)

  datatype TextMatch = TextMatch(fragment: string, matches: seq<Occurrence>)

  datatype Lines = Lines(start: nat, end: nat)

  datatype Candidate = Candidate(file: string, range: Option<Lines>)

  // ------------------------------------------------------------------ occurrences

  /** The first occurrence at or after `from`. */
  function Find(content: string, fragment: string, from: nat): (found: Option<nat>)
    requires from <= |content|
    ensures match found
            case Some(i) => from <= i && OccursAt(content, fragment, i)
                            && forall k: nat | from <= k < i :: !OccursAt(content, fragment, k)
            case None => forall k: nat | from <= k :: !OccursAt(content, fragment, k)
    decreases |content| - from
  {
    if OccursAt(content, fragment, from) then Some(from)
    else if from == |content| then None
    else Find(content, fragment, from + 1)
  }

  // ------------------------------------------------------------------ line endings

  function JoinPairs(s: string): string {
    if s == "" then ""
    else if |s| >= 2 && s[0] == '\r' && s[1] == '\n' then ['\n'] + JoinPairs(s[2..])
    else [s[0]] + JoinPairs(s[1..])
  }

  function ReplaceReturns(s: string): string {
    if s == "" then "" else [if s[0] == '\r' then '\n' else s[0]] + ReplaceReturns(s[1..])
  }

  /** Pairs first, then single carriage returns. */
  function NormalizeLineEndings(s: string): string {
    ReplaceReturns(JoinPairs(s))
  }

  /** How long the line ending, or other character, in front is. */
  function FrontWidth(s: string): (n: nat)
    requires s != ""
    ensures 1 <= n <= |s|
  {
    if |s| >= 2 && s[0] == '\r' && s[1] == '\n' then 2 else 1
  }

  function LineFeedFor(c: char): char {
    if c == '\r' then '\n' else c
  }

  /** The same in one pass: every line ending, of either kind, becomes one line feed. */
  function Lined(s: string): string {
    if s == "" then "" else [LineFeedFor(s[0])] + Lined(s[FrontWidth(s)..])
  }

  lemma {:induction false} OnePassIsEnough(s: string)
    ensures NormalizeLineEndings(s) == Lined(s)
  {
    if s != "" {
      var rest := s[FrontWidth(s)..];
      OnePassIsEnough(rest);
      assert JoinPairs(s)[1..] == JoinPairs(rest);
    }
  }

  lemma {:induction false} NothingToNormalize(s: string)
    requires '\r' !in s
    ensures Lined(s) == s
  {
    if s != "" {
      NothingToNormalize(s[1..]);
      assert [s[0]] + s[1..] == s;
    }
  }

  /** The second text begins inside a pair the first one ends in. */
  predicate SplitsPair(a: string, b: string) {
    a != "" && b != "" && a[|a| - 1] == '\r' && b[0] == '\n'
  }

  /** What is left of the second text when the first one may end in half a pair. */
  function AfterPair(a: string, b: string): string {
    if SplitsPair(a, b) then b[1..] else b
  }

  lemma FrontOfJoin(a: string, b: string)
    requires a != ""
    ensures FrontWidth(a) < |a| || !SplitsPair(a, b) ==>
              FrontWidth(a + b) == FrontWidth(a) && (a + b)[FrontWidth(a)..] == a[FrontWidth(a)..] + b
    ensures FrontWidth(a) == |a| && SplitsPair(a, b) ==>
              FrontWidth(a + b) == |a| + 1 && (a + b)[|a| + 1..] == b[1..]
  {}

  lemma PairSplitsLater(a: string, n: nat, b: string)
    requires n < |a|
    ensures AfterPair(a[n..], b) == AfterPair(a, b)
  {}

  /** Normalising a join: a pair that the join closes gives one line feed, not two. */
  lemma {:induction false} LinedJoin(a: string, b: string)
    ensures Lined(a + b) == Lined(a) + Lined(AfterPair(a, b))
  {
    if a == "" {
      assert a + b == b;
    } else {
      var n := FrontWidth(a);
      FrontOfJoin(a, b);
      assert (a + b)[0] == a[0];
      if n < |a| {
        PairSplitsLater(a, n, b);
        LinedJoin(a[n..], b);
      } else {
        assert a[n..] == "" && Lined(a) == [LineFeedFor(a[0])];
      }
    }
  }

  /** A text that ends in half a pair still ends in a line feed of its own. */
  lemma LastReturnIsLined(front: string)
    ensures Lined(front + ['\r']) == Lined(front) + ['\n']
  {
    var last := ['\r'];
    LinedJoin(front, last);
    assert !SplitsPair(front, last);
    assert last[1..] == "" && Lined(last) == ['\n'] + Lined(last[1..]);
  }

  lemma InsideJoin(front: string, middle: string, tail: string)
    ensures Contains(front + (middle + tail), middle)
  {
    assert OccursAt(front + (middle + tail), middle, |front|);
  }

  lemma LineFeedFirst(rest: string)
    requires rest != "" && rest[0] == '\n'
    ensures Lined(rest) == ['\n'] + Lined(rest[1..])
  {}

  lemma Regroup(a: string, b: string, c: string)
    ensures a + b + c == a + (b + c)
  {}

  /** Before a fragment that starts inside a pair: the pair's line feed is the fragment's. */
  lemma LinedAfterHalfPair(front: string, rest: string)
    requires rest != "" && rest[0] == '\n'
    ensures Lined(front + ['\r'] + rest) == Lined(front) + Lined(rest)
  {
    LinedJoin(front + ['\r'], rest);
    LastReturnIsLined(front);
    LineFeedFirst(rest);
    Regroup(Lined(front), ['\n'], Lined(rest[1..]));
  }

  /** A fragment stays in when both are normalised, even one that starts or ends inside a pair. */
  lemma NormalizedStaysIn(before: string, fragment: string, after: string)
    requires fragment != ""
    ensures Contains(Lined(before + (fragment + after)), Lined(fragment))
  {
    var rest, tail := fragment + after, Lined(AfterPair(fragment, after));
    LinedJoin(fragment, after);
    if SplitsPair(before, rest) {
      var front := before[..|before| - 1];
      assert before == front + ['\r'];
      LinedAfterHalfPair(front, rest);
      InsideJoin(Lined(front), Lined(fragment), tail);
    } else {
      LinedJoin(before, rest);
      InsideJoin(Lined(before), Lined(fragment), tail);
    }
  }

  function ContainsFragment(content: string, fragment: string): bool {
    if fragment == "" then false
    else if Find(content, fragment, 0).Some? then true
    else if '\r' !in content && '\r' !in fragment then false
    else Find(NormalizeLineEndings(content), NormalizeLineEndings(fragment), 0).Some?
  }

  lemma FindIffContains(content: string, fragment: string)
    ensures Find(content, fragment, 0).Some? <==> Contains(content, fragment)
  {}

  lemma LiteralMeansNormalized(content: string, fragment: string, i: nat)
    requires fragment != "" && OccursAt(content, fragment, i)
    ensures Contains(Lined(content), Lined(fragment))
  {
    var before, after := content[..i], content[i + |fragment|..];
    assert content == before + (fragment + after);
    NormalizedStaysIn(before, fragment, after);
  }

  /**
   * The three-step test is its simple form, for every content and fragment: the fragment is
   * not empty and its normalised text is in the normalised content.
   */
  lemma ContainsFragmentIff(content: string, fragment: string)
    ensures ContainsFragment(content, fragment) <==> fragment != "" && Contains(Lined(content), Lined(fragment))
  {
    if fragment != "" {
      if Find(content, fragment, 0).Some? {
        LiteralMeansNormalized(content, fragment, Find(content, fragment, 0).value);
      } else if '\r' !in content && '\r' !in fragment {
        NothingToNormalize(content);
        NothingToNormalize(fragment);
        FindIffContains(content, fragment);
      } else {
        OnePassIsEnough(content);
        OnePassIsEnough(fragment);
        FindIffContains(Lined(content), Lined(fragment));
      }
    }
  }

  // ------------------------------------------------------------------ locating the match

  /** The byte offset of a character, or the length for the position after the last. */
  function CharacterOffset(value: string, character: nat): Option<nat> {
    if character <= |value| then Some(ByteLen(value[..character])) else None
  }

  function LineFeeds(s: string): nat {
    if s == "" then 0 else LineFeeds(s[..|s| - 1]) + (if s[|s| - 1] == '\n' then 1 else 0)
  }

  function LineNumberAt(content: string, offset: nat): Option<nat> {
    var character := CharAt(content, offset);
    if character.None? || character.value > |content| then None
    else
      var line := LineFeeds(content[..character.value]) + 1;
      if line <= U32_MAX then Some(line) else None
  }

  /** The offset of the last character that starts before a boundary. */
  function LastCharBefore(content: string, offset: nat): Option<nat> {
    var character := CharAt(content, offset);
    if character.None? || character.value == 0 || character.value > |content| then None
    else Some(ByteLen(content[..character.value - 1]))
  }

  function MinStart(matches: seq<Occurrence>): (least: nat)
    requires matches != []
    ensures exists m | m in matches :: m.start == least
    ensures forall m | m in matches :: least <= m.start
  {
    if |matches| == 1 then matches[0].start
    else
      var least := MinStart(matches[1..]);
      if matches[0].start < least then matches[0].start else least
  }

  function MaxEnd(matches: seq<Occurrence>): (greatest: nat)
    requires matches != []
    ensures exists m | m in matches :: m.end == greatest
    ensures forall m | m in matches :: m.end <= greatest
  {
    if |matches| == 1 then matches[0].end
    else
      var greatest := MaxEnd(matches[1..]);
      if greatest < matches[0].end then matches[0].end else greatest
  }

  /** The lines of the characters from one byte offset up to another. */
  function LinesBetween(content: string, startOffset: nat, endOffset: nat): Option<Lines> {
    var lineStart := LineNumberAt(content, startOffset);
    var finalOffset := LastCharBefore(content, endOffset);
    if lineStart.None? || finalOffset.None? then None
    else
      var lineEnd := LineNumberAt(content, finalOffset.value);
      if lineEnd.None? then None
      else Some(Lines(lineStart.value, if lineEnd.value < lineStart.value then lineStart.value else lineEnd.value))
  }

  /** The lines of characters start..end of a fragment found at `first`. */
  function LinesOfMatch(content: string, fragment: string, first: nat, start: nat, end: nat): Option<Lines>
    requires first <= |content|
  {
    if start >= end then None
    else
      var offset := ByteLen(content[..first]);
      var startOffset, endOffset := CharacterOffset(fragment, start), CharacterOffset(fragment, end);
      if startOffset.None? || endOffset.None? then None
      else LinesBetween(content, offset + startOffset.value, offset + endOffset.value)
  }

  function LocateTextMatch(content: string, m: TextMatch): Option<Lines> {
    if m.fragment == "" || m.matches == [] then None
    else
      var first := Find(content, m.fragment, 0);
      if first.None? || Find(content, m.fragment, first.value + |m.fragment|).Some? then None
      else LinesOfMatch(content, m.fragment, first.value, MinStart(m.matches), MaxEnd(m.matches))
  }

  /** The fragment occurs, and after its first occurrence it does not occur again. */
  ghost predicate OccursOnce(content: string, fragment: string, first: nat) {
    && OccursAt(content, fragment, first)
    && (forall k: nat | k < first :: !OccursAt(content, fragment, k))
    && (forall k: nat | first + |fragment| <= k :: !OccursAt(content, fragment, k))
  }

  /** The line of the character at `i`: the line feeds before it, plus one. */
  function LineOf(content: string, i: nat): nat
    requires i <= |content|
  {
    LineFeeds(content[..i]) + 1
  }

  /** The lines of the first and the last of the matched characters. */
  predicate Spans(content: string, first: nat, start: nat, end: nat, lines: Lines)
    requires start < end && first + end <= |content|
  {
    lines == Lines(LineOf(content, first + start), LineOf(content, first + end - 1)) && lines.end <= U32_MAX
  }

  /** When a range is reported, and which. */
  ghost predicate Located(content: string, m: TextMatch, first: nat, lines: Lines) {
    && m.fragment != "" && m.matches != []
    && OccursOnce(content, m.fragment, first)
    && MinStart(m.matches) < MaxEnd(m.matches) <= |m.fragment|
    && Spans(content, first, MinStart(m.matches), MaxEnd(m.matches), lines)
  }

  lemma {:induction false} OffsetFindsCharacter(s: string, k: nat)
    requires k <= |s|
    ensures CharAt(s, ByteLen(s[..k])) == Some(k)
  {
    if k > 0 {
      OffsetFindsCharacter(s[1..], k - 1);
      assert s[..k][1..] == s[1..][..k - 1];
    }
  }

  lemma PrefixSplits(s: string, i: nat, k: nat)
    requires i + k <= |s|
    ensures s[..i] + s[i..i + k] == s[..i + k]
  {}

  /** An offset into the fragment, added to the fragment's own, is the offset in the content. */
  lemma OffsetsAdd(content: string, fragment: string, first: nat, k: nat)
    requires OccursAt(content, fragment, first) && k <= |fragment|
    ensures ByteLen(content[..first]) + ByteLen(fragment[..k]) == ByteLen(content[..first + k])
  {
    ByteLenAddsUp(content[..first], fragment[..k]);
    assert content[first..first + |fragment|][..k] == content[first..first + k];
    PrefixSplits(content, first, k);
  }

  lemma {:induction false} LineFeedsGrow(content: string, i: nat, j: nat)
    requires i <= j <= |content|
    ensures LineFeeds(content[..i]) <= LineFeeds(content[..j])
  {
    if i < j {
      LineFeedsGrow(content, i, j - 1);
      assert content[..j][..j - 1] == content[..j - 1];
    }
  }

  lemma LineAtOffset(content: string, k: nat)
    requires k <= |content|
    ensures LineNumberAt(content, ByteLen(content[..k]))
            == (if LineOf(content, k) <= U32_MAX then Some(LineOf(content, k)) else None)
    ensures LastCharBefore(content, ByteLen(content[..k]))
            == (if k == 0 then None else Some(ByteLen(content[..k - 1])))
  {
    OffsetFindsCharacter(content, k);
  }

  lemma BetweenOffsets(content: string, i: nat, j: nat)
    requires i < j <= |content|
    ensures LineOf(content, i) <= LineOf(content, j - 1)
    ensures LinesBetween(content, ByteLen(content[..i]), ByteLen(content[..j]))
            == (if LineOf(content, j - 1) <= U32_MAX then Some(Lines(LineOf(content, i), LineOf(content, j - 1)))
                else None)
  {
    LineAtOffset(content, i);
    LineAtOffset(content, j);
    LineAtOffset(content, j - 1);
    LineFeedsGrow(content, i, j - 1);
  }

  /** The byte arithmetic gives the lines of the matched characters, and nothing for an empty or overlong match. */
  lemma MatchHasLines(content: string, fragment: string, first: nat, start: nat, end: nat, lines: Lines)
    requires OccursAt(content, fragment, first)
    ensures LinesOfMatch(content, fragment, first, start, end) == Some(lines)
            <==> start < end <= |fragment| && Spans(content, first, start, end, lines)
    ensures start < end <= |fragment| ==> LineOf(content, first + start) <= LineOf(content, first + end - 1)
  {
    if start < end <= |fragment| {
      OffsetsAdd(content, fragment, first, start);
      OffsetsAdd(content, fragment, first, end);
      BetweenOffsets(content, first + start, first + end);
    }
  }

  /** A range is reported exactly when `Located` says so, for every content and match. */
  lemma LocatedIff(content: string, m: TextMatch, lines: Lines)
    ensures LocateTextMatch(content, m) == Some(lines) <==> exists first: nat :: Located(content, m, first, lines)
  {
    if m.fragment != "" && m.matches != [] && Find(content, m.fragment, 0).Some? {
      var first := Find(content, m.fragment, 0).value;
      MatchHasLines(content, m.fragment, first, MinStart(m.matches), MaxEnd(m.matches), lines);
      if LocateTextMatch(content, m) == Some(lines) {
        assert Located(content, m, first, lines);
      }
      if k: nat :| Located(content, m, k, lines) {
        assert k == first;
      }
    }
  }

  /** A reported range is in order and inside the file; the larger end is always the end's own line. */
  lemma LocatedLinesAreOrdered(content: string, m: TextMatch, lines: Lines)
    requires LocateTextMatch(content, m) == Some(lines)
    ensures 1 <= lines.start <= lines.end <= LineFeeds(content) + 1
    ensures lines.end <= U32_MAX
  {
    LocatedIff(content, m, lines);
    var first: nat :| Located(content, m, first, lines);
    SpannedLinesAreOrdered(content, first, MinStart(m.matches), MaxEnd(m.matches), lines);
  }

  lemma SpannedLinesAreOrdered(content: string, first: nat, start: nat, end: nat, lines: Lines)
    requires start < end && first + end <= |content| && Spans(content, first, start, end, lines)
    ensures 1 <= lines.start <= lines.end <= LineFeeds(content) + 1
  {
    LineFeedsGrow(content, first + start, first + end - 1);
    LineFeedsGrow(content, first + end - 1, |content|);
    assert content[..|content|] == content;
  }

  // ------------------------------------------------------------------ the verdict

  function VerifyAgainstPinnedContent(file: string, textMatch: Option<TextMatch>, content: string): Option<Candidate> {
    match textMatch
    case None => Some(Candidate(file, None))
    case Some(m) =>
      if !ContainsFragment(content, m.fragment) then None
      else Some(Candidate(file, LocateTextMatch(content, m)))
  }

  /**
   * A candidate is kept exactly when it came without a fragment or its fragment is in the file
   * up to line endings; and it has exactly the lines of the matched characters, when the
   * fragment is there literally, once.
   */
  lemma VerifiedIff(file: string, textMatch: Option<TextMatch>, content: string)
    ensures var verified := VerifyAgainstPinnedContent(file, textMatch, content);
            && (verified.Some?
                <==> textMatch.None?
                     || (textMatch.value.fragment != "" && Contains(Lined(content), Lined(textMatch.value.fragment))))
            && (verified.Some? ==>
              && verified.value.file == file
              && forall lines :: verified.value.range == Some(lines) <==>
                   textMatch.Some? && exists first: nat :: Located(content, textMatch.value, first, lines))
  {
    if textMatch.Some? {
      var m := textMatch.value;
      ContainsFragmentIff(content, m.fragment);
      forall lines
        ensures LocateTextMatch(content, m) == Some(lines) <==> exists first: nat :: Located(content, m, first, lines)
      {
        LocatedIff(content, m, lines);
      }
    }
  }

  // ------------------------------------------------------------------ line endings and lines, spelt out

  lemma PairReads(b: string)
    ensures Lined("\r\n" + b) == "\n" + Lined(b)
  {
    var pair := "\r\n" + b;
    assert FrontWidth(pair) == 2 && pair[2..] == b && LineFeedFor(pair[0]) == '\n';
  }

  lemma ReturnReads(b: string)
    requires b == "" || b[0] != '\n'
    ensures Lined("\r" + b) == "\n" + Lined(b)
  {
    var single := "\r" + b;
    assert FrontWidth(single) == 1 && single[1..] == b && LineFeedFor(single[0]) == '\n';
  }

  lemma LinedCopies(a: string, rest: string)
    requires '\r' !in a
    ensures Lined(a + rest) == a + Lined(rest)
  {
    NothingToNormalize(a);
    LinedJoin(a, rest);
    assert a != "" ==> a[|a| - 1] in a;
  }

  /** Up to its first carriage return a text stays; alone or before a line feed, that becomes one line feed. */
  lemma LinedReads(a: string, b: string)
    requires '\r' !in a
    ensures Lined(a) == a
    ensures Lined(a + ("\r\n" + b)) == a + ("\n" + Lined(b))
    ensures b == "" || b[0] != '\n' ==> Lined(a + ("\r" + b)) == a + ("\n" + Lined(b))
  {
    NothingToNormalize(a);
    LinedCopies(a, "\r\n" + b);
    LinedCopies(a, "\r" + b);
    PairReads(b);
    if b == "" || b[0] != '\n' {
      ReturnReads(b);
    }
  }

  /** The line of a character: one more than the line feeds before it. */
  lemma {:induction false} LineOfCounts(content: string, i: nat)
    requires i <= |content|
    ensures LineOf(content, i) == 1 + |set k: nat | k < i && content[k] == '\n'|
  {
    var before := set k: nat | k < i && content[k] == '\n';
    if i == 0 {
      assert before == {};
    } else {
      LineOfCounts(content, i - 1);
      var earlier := set k: nat | k < i - 1 && content[k] == '\n';
      assert content[..i][..i - 1] == content[..i - 1];
      assert before == if content[i - 1] == '\n' then earlier + {i - 1} else earlier;
    }
  }
}
