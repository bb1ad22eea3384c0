/** Opaque segments of a text, and credentials split over neighbouring segments. */
module OpaqueText {
  import opened Basics
  import opened Codecs

  datatype Span = Span(start: nat, end: nat)

  /** At most eight neighbouring segments are read as one token. */
  const MAX_JOINED := 8

  /** The credential alphabet: letters, digits and `-._~+/=`. */
  predicate IsOpaque(b: byte) {
    IsUnreserved(b) || b == 0x2B || b == 0x2F || b == 0x3D
  }

  predicate Within(value: Text, span: Span) {
    span.start <= span.end <= |value|
  }

  function Slice(value: Text, span: Span): Text
    requires Within(value, span)
  {
    value[span.start..span.end]
  }

  /** A longest non-empty run of opaque characters. */
  predicate IsSegment(value: Text, span: Span) {
    && span.start < span.end <= |value|
    && (forall i | span.start <= i < span.end :: IsOpaque(value[i]))
    && (span.start == 0 || !IsOpaque(value[span.start - 1]))
    && (span.end == |value| || !IsOpaque(value[span.end]))
  }

  /** Where the run of opaque characters through `index` stops. */
  function RunEnd(value: Text, index: nat): (end: nat)
    requires index <= |value|
    ensures index <= end <= |value|
    ensures forall i | index <= i < end :: IsOpaque(value[i])
    ensures end == |value| || !IsOpaque(value[end])
    decreases |value| - index
  {
    if index < |value| && IsOpaque(value[index]) then RunEnd(value, index + 1) else index
  }

  function SegmentsFrom(value: Text, index: nat): (segments: seq<Span>)
    requires index <= |value|
    ensures forall s | s in segments :: index <= s.start < s.end <= |value|
    decreases |value| - index
  {
    if index == |value| then []
    else if IsOpaque(value[index]) then
      [Span(index, RunEnd(value, index))] + SegmentsFrom(value, RunEnd(value, index))
    else SegmentsFrom(value, index + 1)
  }

  function Segments(value: Text): (segments: seq<Span>)
    ensures forall s | s in segments :: s.start < s.end <= |value|
  {
    SegmentsFrom(value, 0)
  }

  predicate Apart(segments: seq<Span>) {
    forall i, j | 0 <= i < j < |segments| :: segments[i].end < segments[j].start
  }

  /** The index does not cut a run in two. */
  predicate AtBoundary(value: Text, index: nat)
    requires index <= |value|
  {
    index == 0 || index == |value| || !IsOpaque(value[index - 1]) || !IsOpaque(value[index])
  }

  lemma FirstRun(value: Text, index: nat, s: Span)
    requires index < |value| && AtBoundary(value, index) && IsOpaque(value[index])
    requires index <= s.start < RunEnd(value, index)
    ensures IsSegment(value, s) <==> s == Span(index, RunEnd(value, index))
  {}

  lemma RunThenLater(value: Text, index: nat, s: Span)
    requires index < |value| && AtBoundary(value, index) && IsOpaque(value[index]) && index <= s.start
    requires RunEnd(value, index) <= s.start ==>
               (s in SegmentsFrom(value, RunEnd(value, index)) <==> IsSegment(value, s))
    ensures s in SegmentsFrom(value, index) <==> IsSegment(value, s)
  {
    var first := Span(index, RunEnd(value, index));
    assert s in SegmentsFrom(value, index) <==> s == first || s in SegmentsFrom(value, first.end);
    if s.start < first.end {
      FirstRun(value, index, s);
    }
  }

  lemma {:induction false} SegmentsFromAreTheRuns(value: Text, index: nat)
    requires index <= |value| && AtBoundary(value, index)
    ensures forall s: Span | index <= s.start :: s in SegmentsFrom(value, index) <==> IsSegment(value, s)
    decreases |value| - index
  {
    if index < |value| && IsOpaque(value[index]) {
      SegmentsFromAreTheRuns(value, RunEnd(value, index));
      forall s: Span | index <= s.start ensures s in SegmentsFrom(value, index) <==> IsSegment(value, s) {
        RunThenLater(value, index, s);
      }
    } else if index < |value| {
      SegmentsFromAreTheRuns(value, index + 1);
    }
  }

  lemma {:induction false} SegmentsAreApart(value: Text, index: nat)
    requires index <= |value|
    ensures Apart(SegmentsFrom(value, index))
    decreases |value| - index
  {
    if index < |value| && IsOpaque(value[index]) {
      var first := Span(index, RunEnd(value, index));
      var later := SegmentsFrom(value, first.end);
      SegmentsAreApart(value, first.end);
      assert first.end < |value| ==> later == SegmentsFrom(value, first.end + 1);
      assert forall i | 0 <= i < |later| :: later[i] in later && first.end < later[i].start;
    } else if index < |value| {
      SegmentsAreApart(value, index + 1);
    }
  }

  /** The segments of a text are exactly its longest opaque runs, in order. */
  lemma SegmentsAreTheRuns(value: Text)
    ensures forall s :: s in Segments(value) <==> IsSegment(value, s)
    ensures Apart(Segments(value))
  {
    SegmentsFromAreTheRuns(value, 0);
    SegmentsAreApart(value, 0);
  }

  method OpaqueSegments(value: Text) returns (segments: seq<Span>)
    ensures segments == Segments(value)
    ensures forall s :: s in segments <==> IsSegment(value, s)
    ensures Apart(segments)
  {
    segments := [];
    var start: Option<nat> := None;
    for index := 0 to |value|
      invariant match start
                case None => segments + SegmentsFrom(value, index) == Segments(value)
                case Some(s) => (
                  && s < index && IsOpaque(value[s]) && RunEnd(value, s) == RunEnd(value, index)
                  && segments + SegmentsFrom(value, s) == Segments(value))
    {
      if IsOpaque(value[index]) {
        if start.None? {
          start := Some(index);
        }
      } else if start.Some? {
        segments := segments + [Span(start.value, index)];
        start := None;
      }
    }
    if start.Some? {
      segments := segments + [Span(start.value, |value|)];
    }
    SegmentsAreTheRuns(value);
  }

  // ------------------------------------------------------------------ split credentials

  /** The distance between two segments, zero when they would overlap. */
  function Gap(before: Span, after: Span): nat {
    if before.end <= after.start then after.start - before.end else 0
  }

  /** Segments first..last may be read as one token: long enough pieces, close together. */
  predicate Linked(segments: seq<Span>, first: nat, last: nat)
    requires first <= last < |segments|
  {
    && last < first + MAX_JOINED
    && (forall i | first <= i <= last :: segments[i].start + 4 <= segments[i].end)
    && (forall i | first < i <= last :: Gap(segments[i - 1], segments[i]) <= 3)
  }

  predicate AllWithin(value: Text, segments: seq<Span>) {
    forall s | s in segments :: Within(value, s)
  }

  function Joined(value: Text, segments: seq<Span>): Text
    requires AllWithin(value, segments)
  {
    if segments == [] then [] else Joined(value, segments[..|segments| - 1]) + Slice(value, segments[|segments| - 1])
  }

  ghost predicate SplitToken(value: Text, segments: seq<Span>, token: Text -> bool, first: nat, last: nat)
    requires AllWithin(value, segments)
  {
    && first < last < |segments|
    && Linked(segments, first, last)
    && token(Joined(value, segments[first..last + 1]))
  }

  /** Some segment is token-like, or two to eight linked neighbours are when joined. */
  ghost predicate SecretShape(value: Text, token: Text -> bool) {
    var segments := Segments(value);
    || (exists s | s in segments :: token(Slice(value, s)))
    || (exists first: nat, last: nat :: SplitToken(value, segments, token, first, last))
  }

  /** No run starts between the two. */
  ghost predicate Neighbours(value: Text, a: Span, b: Span) {
    a.end < b.start && forall s | IsSegment(value, s) && a.end <= s.start :: b.start <= s.start
  }

  /** Two to eight neighbouring runs of four bytes or more, each at most three bytes behind the one before. */
  ghost predicate Chain(value: Text, spans: seq<Span>) {
    && 2 <= |spans| <= 8
    && (forall i | 0 <= i < |spans| :: IsSegment(value, spans[i]) && spans[i].start + 4 <= spans[i].end)
    && (forall i | 0 < i < |spans| :: Follows(value, spans, i))
  }

  ghost predicate Follows(value: Text, spans: seq<Span>, i: nat)
    requires 0 < i < |spans|
  {
    Neighbours(value, spans[i - 1], spans[i]) && spans[i].start <= spans[i - 1].end + 3
  }

  function Concat(value: Text, spans: seq<Span>): Text
    requires AllWithin(value, spans)
  {
    if spans == [] then [] else Slice(value, spans[0]) + Concat(value, spans[1..])
  }

  ghost predicate ChainToken(value: Text, spans: seq<Span>, token: Text -> bool) {
    Chain(value, spans) && AllWithin(value, spans) && token(Concat(value, spans))
  }

  lemma {:induction false} JoinedIsConcat(value: Text, spans: seq<Span>)
    requires AllWithin(value, spans)
    ensures Joined(value, spans) == Concat(value, spans)
  {
    if |spans| > 0 {
      JoinedIsConcat(value, spans[..|spans| - 1]);
      assert spans[..|spans| - 1] + [spans[|spans| - 1]] == spans;
      ConcatGrows(value, spans[..|spans| - 1], spans[|spans| - 1]);
    }
  }

  lemma {:induction false} ConcatGrows(value: Text, spans: seq<Span>, last: Span)
    requires AllWithin(value, spans) && Within(value, last)
    ensures Concat(value, spans + [last]) == Concat(value, spans) + Slice(value, last)
  {
    if spans == [] {
      assert (spans + [last])[1..] == [];
    } else {
      assert (spans + [last])[1..] == spans[1..] + [last];
      ConcatGrows(value, spans[1..], last);
    }
  }

  lemma ListedInOrder(value: Text, i: nat, j: nat)
    requires i < |Segments(value)| && j < |Segments(value)|
    ensures IsSegment(value, Segments(value)[i])
    ensures Segments(value)[i].start < Segments(value)[j].start <==> i < j
    ensures i < j ==> Segments(value)[i].end < Segments(value)[j].start
  {
    var segments := Segments(value);
    SegmentsAreTheRuns(value);
    assert segments[i] in segments && segments[j] in segments;
  }

  /** The runs in the list of a text are neighbours. */
  lemma ListedNeighbours(value: Text, segments: seq<Span>, i: nat)
    requires segments == Segments(value) && 0 < i < |segments|
    ensures Neighbours(value, segments[i - 1], segments[i])
  {
    SegmentsAreTheRuns(value);
    ListedInOrder(value, i - 1, i);
    forall s | IsSegment(value, s) && segments[i - 1].end <= s.start ensures segments[i].start <= s.start {
      var k :| 0 <= k < |segments| && segments[k] == s;
      ListedInOrder(value, i - 1, k);
      ListedInOrder(value, k, i);
    }
  }

  lemma LinkedIsChain(value: Text, segments: seq<Span>, first: nat, last: nat)
    requires segments == Segments(value) && first < last < |segments| && Linked(segments, first, last)
    ensures Chain(value, segments[first..last + 1])
  {
    var spans := segments[first..last + 1];
    SegmentsAreTheRuns(value);
    forall i | 0 <= i < |spans| ensures IsSegment(value, spans[i]) {
      assert spans[i] == segments[first + i] && segments[first + i] in segments;
    }
    forall i | 0 < i < |spans| ensures Follows(value, spans, i) {
      ListedNeighbours(value, segments, first + i);
      assert spans[i - 1] == segments[first + i - 1];
    }
  }

  /** Neighbouring runs stand side by side in the list. */
  lemma {:induction false} ChainIsListed(value: Text, segments: seq<Span>, spans: seq<Span>, first: nat, n: nat)
    requires segments == Segments(value) && Chain(value, spans) && n < |spans|
    requires first < |segments| && segments[first] == spans[0]
    ensures first + n < |segments| && segments[first + n] == spans[n]
  {
    if n > 0 {
      ChainIsListed(value, segments, spans, first, n - 1);
      SegmentsAreTheRuns(value);
      assert Follows(value, spans, n);
      NextListed(value, segments, first + n - 1, spans[n]);
    }
  }

  lemma NextListed(value: Text, segments: seq<Span>, k: nat, b: Span)
    requires segments == Segments(value) && k < |segments| && IsSegment(value, b)
    requires Neighbours(value, segments[k], b)
    ensures k + 1 < |segments| && segments[k + 1] == b
  {
    SegmentsAreTheRuns(value);
    var m :| 0 <= m < |segments| && segments[m] == b;
    ListedInOrder(value, k, m);
    ListedInOrder(value, k, k + 1);
    ListedInOrder(value, k + 1, m);
  }

  lemma ChainIsLinked(value: Text, segments: seq<Span>, spans: seq<Span>, first: nat)
    requires segments == Segments(value) && Chain(value, spans)
    requires first < |segments| && segments[first] == spans[0]
    ensures first + |spans| <= |segments| && segments[first..first + |spans|] == spans
    ensures Linked(segments, first, first + |spans| - 1)
  {
    forall n: nat | n < |spans| ensures first + n < |segments| && segments[first + n] == spans[n] {
      ChainIsListed(value, segments, spans, first, n);
    }
    ChainIsListed(value, segments, spans, first, |spans| - 1);
    forall i | first <= i <= first + |spans| - 1 ensures segments[i].start + 4 <= segments[i].end {
      assert segments[i] == spans[i - first];
    }
    forall i | first < i <= first + |spans| - 1 ensures Gap(segments[i - 1], segments[i]) <= 3 {
      assert Follows(value, spans, i - first);
      assert segments[i - 1] == spans[i - first - 1] && segments[i] == spans[i - first];
    }
  }

  lemma SplitTokenIsChain(value: Text, token: Text -> bool, first: nat, last: nat)
    requires SplitToken(value, Segments(value), token, first, last)
    ensures ChainToken(value, Segments(value)[first..last + 1], token)
  {
    LinkedIsChain(value, Segments(value), first, last);
    JoinedIsConcat(value, Segments(value)[first..last + 1]);
  }

  lemma ChainIsSplitToken(value: Text, token: Text -> bool, spans: seq<Span>) returns (first: nat)
    requires ChainToken(value, spans, token)
    ensures SplitToken(value, Segments(value), token, first, first + |spans| - 1)
  {
    var segments := Segments(value);
    SegmentsAreTheRuns(value);
    assert IsSegment(value, spans[0]);
    first :| 0 <= first < |segments| && segments[first] == spans[0];
    ChainIsLinked(value, segments, spans, first);
    JoinedIsConcat(value, spans);
  }

  /**
   * The shape of a secret, said of the text alone: a token-like run, or two to eight neighbouring
   * runs of four bytes or more, at most three bytes apart, that are token-like put together.
   */
  lemma SecretShapeIff(value: Text, token: Text -> bool)
    ensures SecretShape(value, token)
            <==> (exists s :: IsSegment(value, s) && token(value[s.start..s.end]))
                 || exists spans :: ChainToken(value, spans, token)
  {
    SegmentsAreTheRuns(value);
    if first: nat, last: nat :| SplitToken(value, Segments(value), token, first, last) {
      SplitTokenIsChain(value, token, first, last);
    }
    if spans :| ChainToken(value, spans, token) {
      var first := ChainIsSplitToken(value, token, spans);
    }
    assert forall s | s in Segments(value) :: Slice(value, s) == value[s.start..s.end];
  }

  /** A run is made of letters, digits and the seven characters `-._~+/=`. */
  lemma OpaqueIsAlphabet(b: byte)
    ensures var c := b as char;
            IsOpaque(b) <==> 'A' <= c <= 'Z' || 'a' <= c <= 'z' || '0' <= c <= '9' || c == '-' || c == '.' || c == '_'
                             || c == '~' || c == '+' || c == '/' || c == '='
  {}

  lemma JoinedGrows(value: Text, segments: seq<Span>, first: nat, last: nat)
    requires first <= last < |segments| && AllWithin(value, segments)
    ensures Joined(value, segments[first..last + 1])
            == Joined(value, segments[first..last]) + Slice(value, segments[last])
  {
    assert segments[first..last + 1][..last - first] == segments[first..last];
  }

  method ContainsSecretShape(value: Text, token: Text -> bool) returns (found: bool)
    ensures found == SecretShape(value, token)
  {
    var segments := OpaqueSegments(value);
    for i := 0 to |segments|
      invariant forall k | 0 <= k < i :: !token(Slice(value, segments[k]))
    {
      if token(Slice(value, segments[i])) {
        return true;
      }
    }
    for start := 0 to |segments|
      invariant forall first: nat, last: nat | first < start :: !SplitToken(value, segments, token, first, last)
    {
      found := SplitTokenFrom(value, segments, token, start);
      if found {
        return true;
      }
    }
    assert forall first: nat, last: nat | SplitToken(value, segments, token, first, last) :: first < |segments|;
    return false;
  }

  /** A piece too short or too far away ends every chain from `start`. */
  lemma LinkBreaks(segments: seq<Span>, start: nat, end: nat)
    requires start <= end < |segments|
    requires segments[end].end < segments[end].start + 4 || (end > start && Gap(segments[end - 1], segments[end]) > 3)
    ensures forall last: nat | end <= last < |segments| :: !Linked(segments, start, last)
  {}

  lemma LinkGoesOn(segments: seq<Span>, start: nat, end: nat)
    requires start <= end < |segments| && end < start + MAX_JOINED && (end > start ==> Linked(segments, start, end - 1))
    requires segments[end].start + 4 <= segments[end].end
    requires end > start ==> Gap(segments[end - 1], segments[end]) <= 3
    ensures Linked(segments, start, end)
  {}

  /** Joins segments from `start` on until one is too short, too far away or the ninth. */
  method SplitTokenFrom(value: Text, segments: seq<Span>, token: Text -> bool, start: nat) returns (found: bool)
    requires AllWithin(value, segments) && start < |segments|
    ensures found <==> exists last: nat :: SplitToken(value, segments, token, start, last)
  {
    var joined: Text := [];
    var end := start;
    while end < |segments| && end < start + MAX_JOINED
      invariant start <= end <= |segments| && end <= start + MAX_JOINED
      invariant joined == Joined(value, segments[start..end])
      invariant end > start ==> Linked(segments, start, end - 1)
      invariant forall last: nat | last < end :: !SplitToken(value, segments, token, start, last)
    {
      var segment := segments[end];
      assert segment in segments;
      if segment.end - segment.start < 4 || (end > start && Gap(segments[end - 1], segment) > 3) {
        LinkBreaks(segments, start, end);
        return false;
      }
      LinkGoesOn(segments, start, end);
      JoinedGrows(value, segments, start, end);
      joined := joined + Slice(value, segment);
      if end > start && token(joined) {
        assert SplitToken(value, segments, token, start, end);
        return true;
      }
      end := end + 1;
    }
    return false;
  }
}
