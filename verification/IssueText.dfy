/** How customer text is cleaned, escaped and neutralised before it is published. */
module IssueText {
  import opened Basics

  /** A zero-width space: breaks a reference or a link without changing how it reads. */
  const ZWSP: char := '\U{200B}'

  const ELLIPSIS: char := '\U{2026}'

  // ------------------------------------------------------------------ white space and length

  /** The Unicode characters with the White_Space property. */
  predicate IsWhitespace(c: char) {
    || '\t' <= c <= '\r'
    || c == ' '
    || c == '\U{85}'
    || c == '\U{A0}'
    || c == '\U{1680}'
    || '\U{2000}' <= c <= '\U{200A}'
    || c == '\U{2028}'
    || c == '\U{2029}'
    || c == '\U{202F}'
    || c == '\U{205F}'
    || c == '\U{3000}'
  }

  function WordEnd(s: string, i: nat): (end: nat)
    requires i <= |s|
    ensures i <= end <= |s|
    ensures forall k | i <= k < end :: !IsWhitespace(s[k])
    ensures end == |s| || IsWhitespace(s[end])
    decreases |s| - i
  {
    if i < |s| && !IsWhitespace(s[i]) then WordEnd(s, i + 1) else i
  }

  function Words(s: string): (words: seq<string>)
    ensures forall w | w in words :: w != "" && forall c | c in w :: !IsWhitespace(c) && c in s
  {
    if s == "" then []
    else if IsWhitespace(s[0]) then Words(s[1..])
    else [s[..WordEnd(s, 0)]] + Words(s[WordEnd(s, 0)..])
  }

  function Join(words: seq<string>, separator: string): string {
    if words == [] then ""
    else if |words| == 1 then words[0]
    else words[0] + separator + Join(words[1..], separator)
  }

  function Truncate(s: string, max: nat): (t: string)
    ensures |t| <= max || (max == 0 && |t| == 1)
    ensures |s| <= max ==> t == s
  {
    if |s| <= max then s else s[..if max == 0 then 0 else max - 1] + [ELLIPSIS]
  }

  /** White space collapsed to single spaces, then at most `max` characters. */
  function CleanText(s: string, max: nat): string {
    Truncate(Join(Words(s), " "), max)
  }

  predicate OneLine(s: string) {
    forall c | c in s :: IsWhitespace(c) ==> c == ' '
  }

  /** No white space but single spaces, and none at either end. */
  predicate SingleSpaced(s: string) {
    && OneLine(s)
    && (s != "" ==> s[0] != ' ' && s[|s| - 1] != ' ')
    && (forall i | 0 <= i < |s| - 1 :: s[i] != ' ' || s[i + 1] != ' ')
  }

  predicate IsWord(w: string) {
    w != "" && forall c | c in w :: !IsWhitespace(c)
  }

  lemma WordThenSpaced(w: string, t: string)
    requires IsWord(w) && SingleSpaced(t) && t != ""
    ensures SingleSpaced(w + " " + t)
  {
    var s := w + " " + t;
    forall i | 0 <= i < |s| - 1 ensures s[i] != ' ' || s[i + 1] != ' ' {
      if i < |w| {
        assert s[i] in w;
      } else {
        assert s[i + 1] == t[i - |w|];
        assert i > |w| ==> s[i] == t[i - |w| - 1];
      }
    }
    forall c | c in s && IsWhitespace(c) ensures c == ' ' {
      assert c in w || c == ' ' || c in t;
    }
    assert w[0] in w && s[|s| - 1] == t[|t| - 1];
  }

  lemma {:induction false} JoinedIsSingleSpaced(words: seq<string>)
    requires forall w | w in words :: IsWord(w)
    ensures SingleSpaced(Join(words, " "))
    ensures words != [] ==> Join(words, " ") != ""
  {
    if |words| == 1 {
      assert IsWord(words[0]);
      assert forall i | 0 <= i < |words[0]| :: words[0][i] in words[0];
    } else if |words| > 1 {
      JoinedIsSingleSpaced(words[1..]);
      WordThenSpaced(words[0], Join(words[1..], " "));
    }
  }

  lemma {:induction false} JoinedIsNoLonger(s: string)
    ensures |Join(Words(s), " ")| <= |s|
    ensures s != "" && IsWhitespace(s[0]) && Words(s) != [] ==> |Join(Words(s), " ")| < |s|
  {
    if s != "" && IsWhitespace(s[0]) {
      JoinedIsNoLonger(s[1..]);
    } else if s != "" {
      JoinedIsNoLonger(s[WordEnd(s, 0)..]);
    }
  }

  lemma RestIsSpaced(s: string, at: nat)
    requires SingleSpaced(s) && at < |s| && IsWhitespace(s[at])
    ensures s[at] == ' ' && s[at + 1..] != "" && SingleSpaced(s[at + 1..]) && !IsWhitespace(s[at + 1])
  {
    var rest := s[at + 1..];
    assert s[at] in s && rest != "" && s[at + 1] in s;
    assert forall i | 0 <= i < |rest| :: rest[i] == s[at + 1 + i];
    assert forall c | c in rest :: c in s;
  }

  lemma FirstWord(s: string, end: nat)
    requires s != "" && !IsWhitespace(s[0]) && end == WordEnd(s, 0) && end < |s|
    ensures Words(s) == [s[..end]] + Words(s[end + 1..])
  {
    assert s[end..][1..] == s[end + 1..];
  }

  lemma {:induction false} SpacedIsJoined(s: string)
    requires SingleSpaced(s)
    ensures Join(Words(s), " ") == s
    ensures s != "" ==> Words(s) != []
  {
    if s != "" {
      var end := WordEnd(s, 0);
      assert s[0] in s && !IsWhitespace(s[0]);
      if end == |s| {
        assert Words(s[end..]) == [] && s[..end] == s;
      } else {
        RestIsSpaced(s, end);
        FirstWord(s, end);
        SpacedIsJoined(s[end + 1..]);
        SpacedAgain(s, end, Words(s[end + 1..]));
      }
    }
  }

  lemma SpacedAgain(s: string, end: nat, words: seq<string>)
    requires end < |s| && s[end] == ' ' && words != [] && Join(words, " ") == s[end + 1..]
    ensures Join([s[..end]] + words, " ") == s
  {
    assert ([s[..end]] + words)[1..] == words;
    assert s == s[..end] + " " + s[end + 1..];
  }

  /** Cleaned text stays on its line: single spaces only, none in front, and no more than `max` characters. */
  lemma CleanTextIsOneLine(s: string, max: nat)
    ensures var t := CleanText(s, max);
            && OneLine(t) && (t != "" ==> t[0] != ' ')
            && (forall i | 0 <= i < |t| - 1 :: t[i] != ' ' || t[i + 1] != ' ')
            && (0 < max ==> |t| <= max)
  {
    JoinedIsSingleSpaced(Words(s));
    var whole, cut := Join(Words(s), " "), CleanText(s, max);
    assert forall c | c in cut :: c in whole || c == ELLIPSIS;
  }

  /** Cleaning changes a text exactly when it is not single-spaced or is too long. */
  lemma CleanTextKeepsIff(s: string, max: nat)
    requires 0 < max
    ensures CleanText(s, max) == s <==> SingleSpaced(s) && |s| <= max
  {
    JoinedIsSingleSpaced(Words(s));
    JoinedIsNoLonger(s);
    if SingleSpaced(s) {
      SpacedIsJoined(s);
    }
  }

  // ------------------------------------------------------------------ fences

  predicate FenceAt(s: string, i: nat) {
    i + 3 <= |s| && s[i] == '`' && s[i + 1] == '`' && s[i + 2] == '`'
  }

  /** How many triple-backquote fences a left-to-right search finds. */
  function Fences(s: string): nat {
    if |s| < 3 then 0 else if FenceAt(s, 0) then 1 + Fences(s[3..]) else Fences(s[1..])
  }

  predicate FenceFree(s: string) {
    forall i: nat | i < |s| :: !FenceAt(s, i)
  }

  lemma {:induction false} NoFencesIffFenceFree(s: string)
    ensures Fences(s) == 0 <==> FenceFree(s)
  {
    if 3 <= |s| && !FenceAt(s, 0) {
      NoFencesIffFenceFree(s[1..]);
      assert forall i: nat | 0 < i < |s| :: FenceAt(s, i) == FenceAt(s[1..], i - 1);
      assert forall i: nat | i < |s| - 1 :: FenceAt(s[1..], i) == FenceAt(s, i + 1);
    }
  }

  predicate Separate(a: string, b: string) {
    a == "" || b == "" || a[|a| - 1] != '`' || b[0] != '`'
  }

  /** Fences add up over a join that does not put two backquotes side by side. */
  lemma {:induction false} FencesAddUp(a: string, b: string)
    requires Separate(a, b)
    ensures Fences(a + b) == Fences(a) + Fences(b)
  {
    if a == "" {
      assert a + b == b;
    } else if FenceAt(a, 0) {
      assert (a + b)[3..] == a[3..] + b;
      FencesAddUp(a[3..], b);
    } else {
      assert (a + b)[1..] == a[1..] + b;
      FencesAddUp(a[1..], b);
    }
  }

  /** No two backquotes side by side, and none in front. */
  predicate Sparse(s: string) {
    && (s == "" || s[0] != '`')
    && (forall i | 0 <= i < |s| - 1 :: s[i] != '`' || s[i + 1] != '`')
  }

  lemma SparseIsFenceFree(s: string)
    requires Sparse(s)
    ensures Fences(s) == 0
  {
    NoFencesIffFenceFree(s);
  }

  function RemoveFences(s: string): string {
    if |s| < 3 then s
    else if FenceAt(s, 0) then RemoveFences(s[3..])
    else [s[0]] + RemoveFences(s[1..])
  }

  function LeadingBackquotes(s: string): (n: nat)
    ensures n <= |s|
  {
    if s != "" && s[0] == '`' then 1 + LeadingBackquotes(s[1..]) else 0
  }

  lemma FenceMeansThreeInFront(s: string)
    ensures FenceAt(s, 0) <==> 3 <= LeadingBackquotes(s)
  {
    if |s| >= 3 {
      var two, one := s[2..], s[1..];
      assert one[1..] == two && one[0] == s[1] && two[0] == s[2];
      assert two[0] == '`' <==> LeadingBackquotes(two) >= 1;
      assert one[0] == '`' && two[0] == '`' <==> LeadingBackquotes(one) >= 2;
    }
  }

  lemma ThreeFewer(s: string)
    requires FenceAt(s, 0)
    ensures LeadingBackquotes(s) == 3 + LeadingBackquotes(s[3..])
  {
    var two, one := s[2..], s[1..];
    assert LeadingBackquotes(s) == 1 + LeadingBackquotes(one);
    assert one[1..] == two && LeadingBackquotes(one) == 1 + LeadingBackquotes(two);
    assert two[1..] == s[3..] && LeadingBackquotes(two) == 1 + LeadingBackquotes(s[3..]);
  }

  lemma FencesCons(c: char, t: string)
    requires Fences(t) == 0 && (c == '`' ==> LeadingBackquotes(t) < 2)
    ensures Fences([c] + t) == 0
    ensures LeadingBackquotes([c] + t) == (if c == '`' then 1 + LeadingBackquotes(t) else 0)
  {
    assert ([c] + t)[1..] == t;
    FenceMeansThreeInFront([c] + t);
  }

  lemma {:induction false} RemovingLeavesNoFence(s: string)
    ensures LeadingBackquotes(RemoveFences(s)) == LeadingBackquotes(s) % 3
    ensures Fences(RemoveFences(s)) == 0
  {
    if |s| < 3 {
      ShortHasNoFence(s);
    } else if FenceAt(s, 0) {
      RemovingLeavesNoFence(s[3..]);
      ThreeFewer(s);
    } else {
      RemovingLeavesNoFence(s[1..]);
      KeptLeavesNoFence(s[0], s[1..], RemoveFences(s[1..]));
      assert s == [s[0]] + s[1..];
    }
  }

  lemma ShortHasNoFence(s: string)
    requires |s| < 3
    ensures LeadingBackquotes(s) == LeadingBackquotes(s) % 3
    ensures Fences(s) == 0
  {
    FenceMeansThreeInFront(s);
  }

  /** A character that starts no fence is kept. */
  lemma KeptLeavesNoFence(c: char, t: string, kept: string)
    requires !FenceAt([c] + t, 0) && Fences(kept) == 0 && LeadingBackquotes(kept) == LeadingBackquotes(t) % 3
    ensures Fences([c] + kept) == 0
    ensures LeadingBackquotes([c] + kept) == LeadingBackquotes([c] + t) % 3
  {
    FenceMeansThreeInFront([c] + t);
    assert ([c] + t)[1..] == t;
    FencesCons(c, kept);
  }

  /** Removing fences changes a text exactly when it has some. */
  lemma {:induction false} RemovingKeepsIff(s: string)
    ensures RemoveFences(s) == s <==> FenceFree(s)
    ensures |RemoveFences(s)| <= |s|
  {
    NoFencesIffFenceFree(s);
    RemovingLeavesNoFence(s);
    if |s| >= 3 && FenceAt(s, 0) {
      RemovingKeepsIff(s[3..]);
    } else if |s| >= 3 {
      RemovingKeepsIff(s[1..]);
      NoFencesIffFenceFree(s[1..]);
      assert s == [s[0]] + s[1..];
    }
  }

  lemma {:induction false} WordsAreFenceFree(s: string)
    requires FenceFree(s)
    ensures forall w | w in Words(s) :: FenceFree(w)
  {
    if s != "" {
      var end := if IsWhitespace(s[0]) then 1 else WordEnd(s, 0);
      assert forall i: nat | i < |s| - end :: FenceAt(s[end..], i) == FenceAt(s, end + i);
      WordsAreFenceFree(s[end..]);
      assert forall i: nat | i < end :: FenceAt(s[..end], i) ==> FenceAt(s, i);
    }
  }

  lemma FenceFreeJoin(a: string, b: string)
    requires FenceFree(a) && FenceFree(b) && Separate(a, b)
    ensures FenceFree(a + b)
  {
    NoFencesIffFenceFree(a);
    NoFencesIffFenceFree(b);
    FencesAddUp(a, b);
    NoFencesIffFenceFree(a + b);
  }

  lemma {:induction false} JoinedWordsAreFenceFree(words: seq<string>)
    requires forall w | w in words :: FenceFree(w)
    ensures FenceFree(Join(words, " "))
  {
    if |words| > 1 {
      JoinedWordsAreFenceFree(words[1..]);
      FenceFreeJoin(words[0], " ");
      FenceFreeJoin(words[0] + " ", Join(words[1..], " "));
    }
  }

  /** A detail stripped of fences stays without them when it is cleaned and cut. */
  lemma CleanTextIsFenceFree(s: string, max: nat)
    requires Fences(s) == 0
    ensures FenceFree(CleanText(s, max))
  {
    NoFencesIffFenceFree(s);
    WordsAreFenceFree(s);
    JoinedWordsAreFenceFree(Words(s));
    var whole, cut := Join(Words(s), " "), CleanText(s, max);
    assert forall i: nat | i < |cut| :: FenceAt(cut, i) ==> FenceAt(whole, i);
  }

  // ------------------------------------------------------------------ escaping

  predicate IsMarkdown(c: char) {
    c in {'\\', '`', '*', '_', '~', '[', ']', '(', ')', '<', '>', '|', '!'}
  }

  function EscapeFrom(s: string, first: bool): string {
    if s == "" then ""
    else
      (if IsMarkdown(s[0]) || (first && s[0] in {'-', '+', '>'}) then ['\\', s[0]] else [s[0]])
      + EscapeFrom(s[1..], false)
  }

  /** Markdown characters, and a list mark in front, with a backslash before them. */
  function EscapeInline(s: string): string {
    EscapeFrom(s, true)
  }

  function Unescape(s: string): string {
    if s == "" then ""
    else if s[0] == '\\' && |s| > 1 then [s[1]] + Unescape(s[2..])
    else [s[0]] + Unescape(s[1..])
  }

  lemma {:induction false} EscapingRoundTrip(s: string, first: bool)
    ensures Unescape(EscapeFrom(s, first)) == s
    ensures Sparse(EscapeFrom(s, first))
  {
    if s != "" {
      EscapingRoundTrip(s[1..], false);
      var rest, all := EscapeFrom(s[1..], false), EscapeFrom(s, first);
      if IsMarkdown(s[0]) || (first && s[0] in {'-', '+', '>'}) {
        assert all[2..] == rest && all[0] == '\\' && all[1] == s[0];
      } else {
        assert all[1..] == rest;
      }
      assert [s[0]] + s[1..] == s;
    }
  }

  // ------------------------------------------------------------------ references and links

  function MarkReferences(s: string): string {
    if s == "" then ""
    else (if s[0] == '@' || s[0] == '#' then [s[0], ZWSP] else [s[0]]) + MarkReferences(s[1..])
  }

  predicate SchemeAt(s: string, i: nat) {
    i + 3 <= |s| && s[i] == ':' && s[i + 1] == '/' && s[i + 2] == '/'
  }

  function BreakSchemes(s: string): string {
    if s == "" then ""
    else if SchemeAt(s, 0) then [':', ZWSP, '/', '/'] + BreakSchemes(s[3..])
    else [s[0]] + BreakSchemes(s[1..])
  }

  predicate IsW(c: char) { c == 'w' || c == 'W' }

  predicate WwwAt(s: string, i: nat) {
    i + 4 <= |s| && IsW(s[i]) && IsW(s[i + 1]) && IsW(s[i + 2]) && s[i + 3] == '.'
  }

  function BreakWww(s: string): string {
    if s == "" then ""
    else if WwwAt(s, 0) then [s[0], s[1], s[2], ZWSP, '.'] + BreakWww(s[4..])
    else [s[0]] + BreakWww(s[1..])
  }

  function Neutralize(s: string): string {
    BreakWww(BreakSchemes(MarkReferences(s)))
  }

  lemma {:induction false} CopiedUpTo(s: string, from: nat, to: nat)
    requires from <= to <= |s|
    requires forall i | from <= i < to :: !WwwAt(s, i)
    ensures BreakWww(s[from..]) == s[from..to] + BreakWww(s[to..])
    decreases |s| - from
  {
    if from < to {
      assert s[from..][1..] == s[from + 1..];
      assert WwwAt(s[from..], 0) == WwwAt(s, from);
      CopiedUpTo(s, from + 1, to);
    }
  }

  method FindWww(s: string, from: nat) returns (at: Option<nat>)
    requires from <= |s|
    ensures match at
            case Some(i) => from <= i && WwwAt(s, i) && forall k | from <= k < i :: !WwwAt(s, k)
            case None => forall k | from <= k < |s| :: !WwwAt(s, k)
  {
    for i := from to |s|
      invariant forall k | from <= k < i :: !WwwAt(s, k)
    {
      if WwwAt(s, i) {
        return Some(i);
      }
    }
    return None;
  }

  /** What is rendered so far, followed by what the rest becomes. */
  ghost function Ahead(rendered: string, s: string, cursor: nat): string
    requires cursor <= |s|
  {
    rendered + BreakWww(s[cursor..])
  }

  lemma AheadSteps(rendered: string, s: string, cursor: nat, at: nat)
    requires cursor <= at && WwwAt(s, at) && forall k | cursor <= k < at :: !WwwAt(s, k)
    ensures Ahead(rendered, s, cursor) == Ahead(rendered + s[cursor..at + 3] + [ZWSP] + ['.'], s, at + 4)
  {
    CopiedUpTo(s, cursor, at);
    var rest, tail := s[at..], BreakWww(s[at + 4..]);
    assert WwwAt(rest, 0) && rest[4..] == s[at + 4..];
    assert BreakWww(rest) == s[at..at + 3] + [ZWSP] + ['.'] + tail;
    assert s[cursor..at + 3] == s[cursor..at] + s[at..at + 3];
  }

  lemma AheadEnds(rendered: string, s: string, cursor: nat)
    requires cursor <= |s| && forall k | cursor <= k < |s| :: !WwwAt(s, k)
    ensures Ahead(rendered, s, cursor) == rendered + s[cursor..]
  {
    CopiedUpTo(s, cursor, |s|);
    assert s[|s|..] == "" && s[cursor..|s|] == s[cursor..];
  }

  method NeutralizeWww(s: string) returns (rendered: string)
    ensures rendered == BreakWww(s)
  {
    rendered := "";
    var cursor := 0;
    var found := FindWww(s, cursor);
    ghost var whole := BreakWww(s);
    assert s[0..] == s;
    while found.Some?
      invariant cursor <= |s|
      invariant Ahead(rendered, s, cursor) == whole
      invariant match found
                case Some(i) => cursor <= i && WwwAt(s, i) && forall k | cursor <= k < i :: !WwwAt(s, k)
                case None => forall k | cursor <= k < |s| :: !WwwAt(s, k)
      decreases |s| - cursor, found.Some?
    {
      var dot := found.value + 3;
      AheadSteps(rendered, s, cursor, found.value);
      rendered := rendered + s[cursor..dot] + [ZWSP] + ['.'];
      cursor := dot + 1;
      found := FindWww(s, cursor);
    }
    AheadEnds(rendered, s, cursor);
    rendered := rendered + s[cursor..];
  }

  /** What a reader sees: the text without its zero-width spaces. */
  function Visible(s: string): string {
    if s == "" then "" else (if s[0] == ZWSP then "" else [s[0]]) + Visible(s[1..])
  }

  lemma {:induction false} VisibleJoin(a: string, b: string)
    ensures Visible(a + b) == Visible(a) + Visible(b)
  {
    if a == "" {
      assert a + b == b;
    } else {
      assert (a + b)[1..] == a[1..] + b;
      VisibleJoin(a[1..], b);
    }
  }

  lemma InvisibleReadsTheSame(a: string, z: string, b: string)
    requires Visible(z) == ""
    ensures Visible(a + z + b) == Visible(a + b)
  {
    VisibleJoin(a + z, b);
    VisibleJoin(a, z);
    VisibleJoin(a, b);
  }

  /** A zero-width space anywhere, and a tail that reads the same, do not show. */
  lemma InsertedReadsTheSame(a: string, b: string, tail: string, read: string)
    requires Visible(tail) == Visible(read)
    ensures Visible(a + [ZWSP] + b + tail) == Visible(a + b + read)
  {
    assert Visible([ZWSP]) == "";
    InvisibleReadsTheSame(a, [ZWSP], b);
    VisibleJoin(a + [ZWSP] + b, tail);
    VisibleJoin(a + b, read);
  }

  lemma TailReadsTheSame(c: char, tail: string, read: string)
    requires Visible(tail) == Visible(read)
    ensures Visible([c] + tail) == Visible([c] + read)
  {
    VisibleJoin([c], tail);
    VisibleJoin([c], read);
  }

  lemma {:induction false} MarkedReadsTheSame(s: string)
    ensures Visible(MarkReferences(s)) == Visible(s)
  {
    if s != "" {
      var rest := MarkReferences(s[1..]);
      MarkedReadsTheSame(s[1..]);
      assert s == [s[0]] + s[1..] && s == [s[0]] + "" + s[1..];
      if s[0] == '@' || s[0] == '#' {
        InsertedReadsTheSame([s[0]], "", rest, s[1..]);
        assert MarkReferences(s) == [s[0]] + [ZWSP] + "" + rest;
      } else {
        TailReadsTheSame(s[0], rest, s[1..]);
      }
    }
  }

  lemma {:induction false} BrokenSchemesReadTheSame(s: string)
    ensures Visible(BreakSchemes(s)) == Visible(s)
  {
    if s == "" {
    } else if SchemeAt(s, 0) {
      var rest := BreakSchemes(s[3..]);
      BrokenSchemesReadTheSame(s[3..]);
      InsertedReadsTheSame([':'], ['/', '/'], rest, s[3..]);
      assert BreakSchemes(s) == [':'] + [ZWSP] + ['/', '/'] + rest;
      assert s == [':'] + ['/', '/'] + s[3..];
    } else {
      BrokenSchemesReadTheSame(s[1..]);
      TailReadsTheSame(s[0], BreakSchemes(s[1..]), s[1..]);
      assert s == [s[0]] + s[1..];
    }
  }

  lemma {:induction false} BrokenWwwReadsTheSame(s: string)
    ensures Visible(BreakWww(s)) == Visible(s)
  {
    if s == "" {
    } else if WwwAt(s, 0) {
      var www, rest := [s[0], s[1], s[2]], BreakWww(s[4..]);
      BrokenWwwReadsTheSame(s[4..]);
      InsertedReadsTheSame(www, ['.'], rest, s[4..]);
      assert BreakWww(s) == www + [ZWSP] + ['.'] + rest;
      assert s == www + ['.'] + s[4..];
    } else {
      BrokenWwwReadsTheSame(s[1..]);
      TailReadsTheSame(s[0], BreakWww(s[1..]), s[1..]);
      assert s == [s[0]] + s[1..];
    }
  }

  /** Neutralising only adds zero-width spaces. */
  lemma NeutralizedReadsTheSame(s: string)
    ensures Visible(Neutralize(s)) == Visible(s)
    ensures ZWSP !in s ==> Visible(Neutralize(s)) == s
  {
    MarkedReadsTheSame(s);
    BrokenSchemesReadTheSame(MarkReferences(s));
    BrokenWwwReadsTheSame(BreakSchemes(MarkReferences(s)));
    if ZWSP !in s {
      VisibleWithoutZwsp(s);
    }
  }

  lemma {:induction false} VisibleWithoutZwsp(s: string)
    requires ZWSP !in s
    ensures Visible(s) == s
  {
    if s != "" {
      VisibleWithoutZwsp(s[1..]);
      assert [s[0]] + s[1..] == s;
    }
  }

  // ------------------------------------------------------------------ nothing is left to link

  predicate Marked(s: string) {
    forall i | 0 <= i < |s| && (s[i] == '@' || s[i] == '#') :: i + 1 < |s| && s[i + 1] == ZWSP
  }

  predicate NoScheme(s: string) {
    forall i: nat | i < |s| :: !SchemeAt(s, i)
  }

  predicate NoWww(s: string) {
    forall i: nat | i < |s| :: !WwwAt(s, i)
  }

  predicate StartsWith(s: string, c: char) {
    s != "" && s[0] == c
  }

  lemma MarkedCons(c: char, t: string)
    requires Marked(t) && (c == '@' || c == '#' ==> StartsWith(t, ZWSP))
    ensures Marked([c] + t)
  {}

  lemma NoSchemeCons(c: char, t: string)
    requires NoScheme(t) && (c == ':' ==> !StartsWith(t, '/') || |t| < 2 || t[1] != '/')
    ensures NoScheme([c] + t)
  {
    var s := [c] + t;
    assert forall i: nat | 0 < i < |s| :: SchemeAt(s, i) == SchemeAt(t, i - 1);
  }

  lemma NoWwwCons(c: char, t: string)
    requires NoWww(t) && (IsW(c) ==> !WwwAt([c] + t, 0))
    ensures NoWww([c] + t)
  {
    var s := [c] + t;
    assert forall i: nat | 0 < i < |s| :: WwwAt(s, i) == WwwAt(t, i - 1);
  }

  lemma {:induction false} MarkingMarks(s: string)
    ensures Marked(MarkReferences(s))
  {
    if s != "" {
      var rest := MarkReferences(s[1..]);
      MarkingMarks(s[1..]);
      if s[0] == '@' || s[0] == '#' {
        MarkedCons(ZWSP, rest);
        MarkedCons(s[0], [ZWSP] + rest);
        assert [s[0]] + ([ZWSP] + rest) == MarkReferences(s);
      } else {
        MarkedCons(s[0], rest);
      }
    }
  }

  lemma {:induction false} BreakingSchemes(s: string)
    requires Marked(s)
    ensures Marked(BreakSchemes(s)) && NoScheme(BreakSchemes(s))
  {
    if s == "" {
    } else if SchemeAt(s, 0) {
      var rest := BreakSchemes(s[3..]);
      assert forall i | 0 <= i < |s| - 3 :: s[3..][i] == s[i + 3];
      BreakingSchemes(s[3..]);
      AddPlain('/', rest);
      AddPlain('/', ['/'] + rest);
      AddPlain(ZWSP, ['/'] + (['/'] + rest));
      AddPlain(':', [ZWSP] + (['/'] + (['/'] + rest)));
      assert [':'] + ([ZWSP] + (['/'] + (['/'] + rest))) == BreakSchemes(s);
    } else {
      var rest := BreakSchemes(s[1..]);
      assert forall i | 0 <= i < |s| - 1 :: s[1..][i] == s[i + 1];
      BreakingSchemes(s[1..]);
      if s[0] == '@' || s[0] == '#' {
        assert s[1] == ZWSP;
      }
      MarkedCons(s[0], rest);
      if |s| > 1 && s[1] == '/' {
        assert s[1..][1..] == s[2..] && rest == ['/'] + BreakSchemes(s[2..]);
        assert s[2..] != "" ==> StartsWith(BreakSchemes(s[2..]), s[2]);
      }
      NoSchemeCons(s[0], rest);
    }
  }

  lemma AddPlain(c: char, t: string)
    requires Marked(t) && NoScheme(t) && c != '@' && c != '#'
    requires c == ':' ==> !StartsWith(t, '/')
    ensures Marked([c] + t) && NoScheme([c] + t)
  {
    MarkedCons(c, t);
    NoSchemeCons(c, t);
  }

  lemma {:induction false} BreakingWww(s: string)
    requires Marked(s) && NoScheme(s)
    ensures Marked(BreakWww(s)) && NoScheme(BreakWww(s)) && NoWww(BreakWww(s))
  {
    if s == "" {
    } else if WwwAt(s, 0) {
      var rest := BreakWww(s[4..]);
      assert forall i | 0 <= i < |s| - 4 :: s[4..][i] == s[i + 4];
      assert forall i: nat | i < |s| - 4 :: SchemeAt(s[4..], i) == SchemeAt(s, i + 4);
      BreakingWww(s[4..]);
      AddPlain('.', rest);
      NoWwwCons('.', rest);
      var tail := ['.'] + rest;
      AddPlain(ZWSP, tail);
      NoWwwCons(ZWSP, tail);
      AddThree(s[0], s[1], s[2], [ZWSP] + tail);
      assert [s[0]] + ([s[1]] + ([s[2]] + ([ZWSP] + tail))) == BreakWww(s);
    } else {
      var rest := BreakWww(s[1..]);
      assert forall i | 0 <= i < |s| - 1 :: s[1..][i] == s[i + 1];
      assert forall i: nat | i < |s| - 1 :: SchemeAt(s[1..], i) == SchemeAt(s, i + 1);
      BreakingWww(s[1..]);
      FrontIsKept(s[1..]);
      MarkedCons(s[0], rest);
      assert !SchemeAt(s, 0);
      NoSchemeCons(s[0], rest);
      NoWwwCons(s[0], rest);
    }
  }

  lemma AddThree(a: char, b: char, c: char, t: string)
    requires IsW(a) && IsW(b) && IsW(c) && StartsWith(t, ZWSP)
    requires Marked(t) && NoScheme(t) && NoWww(t)
    ensures var s := [a] + ([b] + ([c] + t)); Marked(s) && NoScheme(s) && NoWww(s)
  {
    AddPlain(c, t);
    NoWwwCons(c, t);
    AddPlain(b, [c] + t);
    NoWwwCons(b, [c] + t);
    AddPlain(a, [b] + ([c] + t));
    NoWwwCons(a, [b] + ([c] + t));
  }

  lemma FirstIsKept(s: string)
    ensures s == "" ==> BreakWww(s) == ""
    ensures s != "" ==> StartsWith(BreakWww(s), s[0])
  {}

  lemma SecondIsKept(s: string)
    ensures |s| < 2 ==> BreakWww(s) == s
    ensures |s| >= 2 ==> |BreakWww(s)| >= 2 && BreakWww(s)[1] == s[1]
  {
    if s != "" {
      FirstIsKept(s[1..]);
    }
  }

  /** Breaking `www.` changes nothing that would matter to the character in front. */
  lemma FrontIsKept(s: string)
    ensures |s| < 2 ==> BreakWww(s) == s
    ensures |s| >= 2 ==> |BreakWww(s)| >= 2 && BreakWww(s)[0] == s[0] && BreakWww(s)[1] == s[1]
    ensures forall c | IsW(c) && WwwAt([c] + BreakWww(s), 0) :: WwwAt([c] + s, 0)
  {
    FirstIsKept(s);
    SecondIsKept(s);
    if |s| >= 2 && !WwwAt(s, 0) {
      SecondIsKept(s[1..]);
    }
  }

  /** Neutralised text mentions nobody, refers to nothing and links nowhere. */
  lemma NeutralizedLinksNothing(s: string)
    ensures Marked(Neutralize(s)) && NoScheme(Neutralize(s)) && NoWww(Neutralize(s))
  {
    MarkingMarks(s);
    BreakingSchemes(MarkReferences(s));
    BreakingWww(BreakSchemes(MarkReferences(s)));
  }
}
