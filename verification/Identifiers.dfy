/** Splitting texts into identifiers and identifiers into their words. */
module Identifiers {

  predicate IsUpper(c: char) { 'A' <= c <= 'Z' }

  predicate IsLower(c: char) { 'a' <= c <= 'z' }

  predicate IsDigit(c: char) { '0' <= c <= '9' }

  predicate IsIdentifierChar(c: char) {
    IsUpper(c) || IsLower(c) || IsDigit(c) || c == '_'
  }

  function ToLower(c: char): char {
    if IsUpper(c) then c - 'A' + 'a' else c
  }

  function Lowercase(s: string): (t: string)
    ensures |t| == |s|
    ensures forall i | 0 <= i < |s| :: t[i] == ToLower(s[i])
  {
    seq(|s|, i requires 0 <= i < |s| => ToLower(s[i]))
  }

  // ------------------------------------------------------------------ splitting

  /** The stretches between separators, empty ones included. */
  function SplitOn(s: string, separator: char -> bool): (parts: seq<string>)
    ensures parts != []
  {
    if s == "" then [""]
    else
      var rest := SplitOn(s[1..], separator);
      if separator(s[0]) then [""] + rest else [[s[0]] + rest[0]] + rest[1..]
  }

  predicate AllNonEmpty(parts: seq<string>) {
    forall i | 0 <= i < |parts| :: |parts[i]| > 0
  }

  function NonEmpty(parts: seq<string>): (r: seq<string>)
    ensures AllNonEmpty(r)
  {
    if parts == [] then [] else (if parts[0] == "" then [] else [parts[0]]) + NonEmpty(parts[1..])
  }

  function Concat(parts: seq<string>): string {
    if parts == [] then "" else parts[0] + Concat(parts[1..])
  }

  function Without(s: string, separator: char -> bool): string {
    if s == "" then "" else (if separator(s[0]) then "" else [s[0]]) + Without(s[1..], separator)
  }

  lemma ConcatCons(part: string, parts: seq<string>)
    ensures Concat([part] + parts) == part + Concat(parts)
  {
    assert ([part] + parts)[1..] == parts;
  }

  lemma {:induction false} PartsHoldTheRest(s: string, separator: char -> bool)
    ensures Concat(SplitOn(s, separator)) == Without(s, separator)
  {
    if s == "" {
      ConcatCons("", []);
      assert [""] + [] == [""];
    } else {
      var rest := SplitOn(s[1..], separator);
      PartsHoldTheRest(s[1..], separator);
      ConcatCons(rest[0], rest[1..]);
      assert [rest[0]] + rest[1..] == rest;
      if separator(s[0]) {
        ConcatCons("", rest);
      } else {
        ConcatCons([s[0]] + rest[0], rest[1..]);
      }
    }
  }

  lemma {:induction false} PartsHaveNoSeparator(s: string, separator: char -> bool)
    ensures forall p | p in SplitOn(s, separator) :: forall c | c in p :: c in s && !separator(c)
  {
    if s != "" {
      var rest := SplitOn(s[1..], separator);
      PartsHaveNoSeparator(s[1..], separator);
      assert rest[0] in rest;
      assert forall p | p in rest[1..] :: p in rest;
    }
  }

  lemma {:induction false} NonEmptyConcat(parts: seq<string>)
    ensures Concat(NonEmpty(parts)) == Concat(parts)
    ensures forall p | p in NonEmpty(parts) :: p in parts
  {
    if parts != [] {
      NonEmptyConcat(parts[1..]);
      var rest := NonEmpty(parts[1..]);
      assert ([parts[0]] + rest)[1..] == rest;
      assert NonEmpty(parts) == if parts[0] == "" then rest else [parts[0]] + rest;
    }
  }

  // ------------------------------------------------------------------ identifier runs

  const MIN_RUN := 3
  const MAX_RUN := 80

  predicate IsRun(s: string) {
    MIN_RUN <= |s| <= MAX_RUN && exists i | 0 <= i < |s| :: !IsDigit(s[i])
  }

  function Runs(parts: seq<string>): (runs: seq<string>)
    ensures forall r | r in runs :: IsRun(r)
  {
    if parts == [] then [] else (if IsRun(parts[0]) then [parts[0]] else []) + Runs(parts[1..])
  }

  function IdentifierRuns(value: string): seq<string> {
    Runs(SplitOn(value, c => !IsIdentifierChar(c)))
  }

  // ------------------------------------------------------------------ the words of an identifier

  /** A word starts at an upper-case letter after a lower-case one, or before one. */
  predicate WordStarts(segment: string, i: nat)
    requires i < |segment|
  {
    0 < i && IsUpper(segment[i])
    && (IsLower(segment[i - 1]) || (i + 1 < |segment| && IsLower(segment[i + 1])))
  }

  /** The words from `start` on, the first one known to reach `index` at least. */
  function WordsFrom(segment: string, start: nat, index: nat): (words: seq<string>)
    requires start < index <= |segment|
    ensures AllNonEmpty(words)
    decreases |segment| - index
  {
    if index == |segment| then [Lowercase(segment[start..])]
    else if WordStarts(segment, index) then
      [Lowercase(segment[start..index])] + WordsFrom(segment, index, index + 1)
    else WordsFrom(segment, start, index + 1)
  }

  function WordsOf(segments: seq<string>): (words: seq<string>)
    requires AllNonEmpty(segments)
    ensures AllNonEmpty(words)
  {
    if segments == [] then [] else WordsFrom(segments[0], 0, 1) + WordsOf(segments[1..])
  }

  predicate IsUnderscore(c: char) { c == '_' }

  function Segments(identifier: string): (segments: seq<string>)
    ensures AllNonEmpty(segments)
  {
    NonEmpty(SplitOn(identifier, IsUnderscore))
  }

  function IdentifierParts(identifier: string): (words: seq<string>)
    ensures AllNonEmpty(words)
  {
    WordsOf(Segments(identifier))
  }

  method SplitSegment(segment: string) returns (words: seq<string>)
    requires segment != ""
    ensures words == WordsFrom(segment, 0, 1)
  {
    words := [];
    var start := 0;
    for index := 1 to |segment|
      invariant start < index
      invariant words + WordsFrom(segment, start, index) == WordsFrom(segment, 0, 1)
    {
      if WordStarts(segment, index) {
        words := words + [Lowercase(segment[start..index])];
        start := index;
      }
    }
    words := words + [Lowercase(segment[start..])];
  }

  lemma NextSegment(segments: seq<string>, i: nat, front: seq<string>)
    requires AllNonEmpty(segments) && i < |segments|
    ensures front + WordsOf(segments[i..]) == front + WordsFrom(segments[i], 0, 1) + WordsOf(segments[i + 1..])
  {
    assert segments[i..][1..] == segments[i + 1..];
  }

  method SplitIdentifier(identifier: string) returns (parts: seq<string>)
    ensures parts == IdentifierParts(identifier)
  {
    parts := [];
    var segments := Segments(identifier);
    ghost var whole := WordsOf(segments);
    assert segments[0..] == segments;
    for i := 0 to |segments|
      invariant parts + WordsOf(segments[i..]) == whole
    {
      NextSegment(segments, i, parts);
      var words := SplitSegment(segments[i]);
      parts := parts + words;
    }
    assert segments[|segments|..] == [];
  }

  lemma LowercaseJoin(a: string, b: string)
    ensures Lowercase(a + b) == Lowercase(a) + Lowercase(b)
  {}

  lemma LowercaseHalves(s: string, start: nat, index: nat)
    requires start <= index <= |s|
    ensures Lowercase(s[start..]) == Lowercase(s[start..index]) + Lowercase(s[index..])
  {
    LowercaseJoin(s[start..index], s[index..]);
    assert s[start..] == s[start..index] + s[index..];
  }

  lemma {:induction false} WordsHoldTheSegment(segment: string, start: nat, index: nat)
    requires start < index <= |segment|
    ensures Concat(WordsFrom(segment, start, index)) == Lowercase(segment[start..])
    decreases |segment| - index
  {
    if index == |segment| {
      ConcatCons(Lowercase(segment[start..]), []);
    } else if WordStarts(segment, index) {
      WordsHoldTheSegment(segment, index, index + 1);
      ConcatCons(Lowercase(segment[start..index]), WordsFrom(segment, index, index + 1));
      LowercaseHalves(segment, start, index);
    } else {
      WordsHoldTheSegment(segment, start, index + 1);
    }
  }

  lemma {:induction false} ConcatJoin(a: seq<string>, b: seq<string>)
    ensures Concat(a + b) == Concat(a) + Concat(b)
  {
    if a == [] {
      assert a + b == b;
    } else {
      assert (a + b)[1..] == a[1..] + b;
      ConcatJoin(a[1..], b);
    }
  }

  lemma {:induction false} WordsHoldTheSegments(segments: seq<string>)
    requires AllNonEmpty(segments)
    ensures Concat(WordsOf(segments)) == Lowercase(Concat(segments))
  {
    if segments != [] {
      WordsHoldTheSegment(segments[0], 0, 1);
      assert segments[0][0..] == segments[0];
      ConcatJoin(WordsFrom(segments[0], 0, 1), WordsOf(segments[1..]));
      WordsHoldTheSegments(segments[1..]);
      LowercaseJoin(segments[0], Concat(segments[1..]));
    }
  }

  /** The words of an identifier, put together, are the identifier in lower case without underscores. */
  lemma PartsRebuildTheIdentifier(identifier: string)
    ensures Concat(IdentifierParts(identifier)) == Lowercase(Without(identifier, IsUnderscore))
  {
    WordsHoldTheSegments(Segments(identifier));
    NonEmptyConcat(SplitOn(identifier, IsUnderscore));
    PartsHoldTheRest(identifier, IsUnderscore);
  }

  /** No upper-case letter and no underscore. */
  predicate IsWord(s: string) {
    s != "" && forall c | c in s :: !IsUpper(c) && c != '_'
  }

  lemma LowercaseIsWord(s: string)
    requires s != "" && '_' !in s
    ensures IsWord(Lowercase(s))
  {
    forall c | c in Lowercase(s) ensures !IsUpper(c) && c != '_' {
      var i :| 0 <= i < |s| && Lowercase(s)[i] == c;
      assert s[i] in s;
    }
  }

  lemma {:induction false} WordsFromAreWords(segment: string, start: nat, index: nat)
    requires start < index <= |segment| && '_' !in segment
    ensures forall w | w in WordsFrom(segment, start, index) :: IsWord(w)
    decreases |segment| - index
  {
    if index == |segment| {
      LowercaseIsWord(segment[start..]);
    } else if WordStarts(segment, index) {
      LowercaseIsWord(segment[start..index]);
      WordsFromAreWords(segment, index, index + 1);
    } else {
      WordsFromAreWords(segment, start, index + 1);
    }
  }

  lemma {:induction false} WordsOfAreWords(segments: seq<string>)
    requires AllNonEmpty(segments) && forall i | 0 <= i < |segments| :: '_' !in segments[i]
    ensures forall w | w in WordsOf(segments) :: IsWord(w)
  {
    if segments != [] {
      WordsFromAreWords(segments[0], 0, 1);
      WordsOfAreWords(segments[1..]);
    }
  }

  lemma {:induction false} WordIsOneSegment(s: string)
    requires '_' !in s
    ensures SplitOn(s, IsUnderscore) == [s]
  {
    if s != "" {
      WordIsOneSegment(s[1..]);
      assert [s[0]] + s[1..] == s;
    }
  }

  lemma {:induction false} WordIsNotSplit(s: string, index: nat)
    requires IsWord(s) && 1 <= index <= |s|
    ensures WordsFrom(s, 0, index) == [s]
    decreases |s| - index
  {
    if index < |s| {
      assert s[index] in s;
      WordIsNotSplit(s, index + 1);
    } else {
      assert forall i | 0 <= i < |s| :: s[i] in s && ToLower(s[i]) == s[i];
      assert Lowercase(s[0..]) == s;
    }
  }

  /** Splitting a part again gives that part alone. */
  lemma PartsAreWhole(identifier: string, part: string)
    requires part in IdentifierParts(identifier)
    ensures part != "" && IdentifierParts(part) == [part]
  {
    PartsHaveNoSeparator(identifier, IsUnderscore);
    NonEmptyConcat(SplitOn(identifier, IsUnderscore));
    forall i | 0 <= i < |Segments(identifier)| ensures '_' !in Segments(identifier)[i] {
      assert Segments(identifier)[i] in Segments(identifier);
    }
    WordsOfAreWords(Segments(identifier));
    WordIsOneSegment(part);
    assert NonEmpty([part]) == [part];
    WordIsNotSplit(part, 1);
    assert WordsOf([part]) == [part];
  }
}
