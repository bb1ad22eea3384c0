/** The marks that both scans look for, and whether finding none in a value says so of what is published. */
module PublicationMarks {
  import opened Substrings
  import opened IssueText
  import opened IssueRedaction
  import opened IssueBody
  import opened PublishedText

  /** Marks that only the scan before publication looks for. */
  const PUBLISH_PREFIXES: seq<string> := ["ghp_", "gho_", "ghs_", "ghr_", "akia", "asia", "xoxa-", "xapp-"]
  const PUBLISH_KEYS: seq<string> := ["sk-ant-", "apikey", "api_key", "secret", "passwd"]
  const PUBLISH_NAMES: seq<string> := ["authorization:"]

  /** Marks that a report is refused for: words, and phrases with a space. */
  const REPORT_TOKENS: seq<string> := ["af_live_", "af_read_", "github_pat_", "ghp_"]
  const REPORT_KEYS: seq<string> := ["sk-ant-", "sk-proj-", "xoxb-", "xoxp-"]
  const REPORT_NAMES: seq<string> := ["aws_secret", "password"]
  const REPORT_LABELS: seq<string> := ["transcript:", "prompt:"]
  const KEY_PHRASES: seq<string> := ["-----begin ", "api key"]
  const PROMPT_PHRASES: seq<string> := ["prompt was", "user asked"]
  const RAW_PHRASES: seq<string> := ["raw input:", "raw output:"]

  const PUBLISH_MARKS: seq<string> := PUBLISH_PREFIXES + (PUBLISH_KEYS + PUBLISH_NAMES)
  const REPORT_WORDS: seq<string> := (REPORT_TOKENS + REPORT_KEYS) + (REPORT_NAMES + REPORT_LABELS)
  const REPORT_PHRASES: seq<string> := KEY_PHRASES + (PROMPT_PHRASES + RAW_PHRASES)
  const WORD_MARKS: seq<string> := PUBLISH_MARKS + REPORT_WORDS
  const ALL_MARKS: seq<string> := WORD_MARKS + REPORT_PHRASES

  function LowerChar(c: char): char {
    if 'A' <= c <= 'Z' then c - 'A' + 'a' else c
  }

  function Lower(s: string): (t: string)
    ensures |t| == |s| && forall i | 0 <= i < |s| :: t[i] == LowerChar(s[i])
  {
    seq(|s|, i requires 0 <= i < |s| => LowerChar(s[i]))
  }

  /** The text holds one of the marks, in any case. */
  ghost predicate HasMark(text: string, marks: seq<string>) {
    exists m | m in marks :: Contains(Lower(text), m)
  }

  ghost function MarkScan(marks: seq<string>): Detector {
    (text: string) => HasMark(text, marks)
  }

  // ------------------------------------------------------------------ what cleaning cannot bring together

  /** No white space, and not the sign that a text was cut. */
  predicate Solid(m: string) {
    forall c | c in m :: !IsWhitespace(c) && c != ELLIPSIS
  }

  lemma {:induction false} WordsAreContained(s: string)
    ensures forall w | w in Words(s) :: Contains(s, w)
  {
    if s != "" {
      var end := if IsWhitespace(s[0]) then 1 else WordEnd(s, 0);
      WordsAreContained(s[end..]);
      SliceIsContained(s, end, |s|);
      SliceIsContained(s, 0, end);
      assert s[end..|s|] == s[end..] && s[0..end] == s[..end];
      forall w | w in Words(s[end..]) ensures Contains(s, w) {
        ContainedInContained(s, s[end..], w);
      }
    }
  }

  /** A part without the separator lies on one side of it. */
  lemma OnOneSide(a: string, b: string, m: string)
    requires m != "" && ' ' !in m && Contains(a + " " + b, m)
    ensures Contains(a, m) || Contains(b, m)
  {
    var s := a + " " + b;
    var i: nat :| OccursAt(s, m, i);
    MarkIsThere(s, m, i);
    assert s[|a|] == ' ' && !(i <= |a| < i + |m|);
    if i + |m| <= |a| {
      assert s[i..i + |m|] == a[i..i + |m|];
      assert OccursAt(a, m, i);
    } else {
      var j := i - |a| - 1;
      assert s[i..i + |m|] == b[j..j + |m|];
      assert OccursAt(b, m, j);
    }
  }

  /** A part of a text, character by character. */
  lemma MarkIsThere(s: string, m: string, i: nat)
    requires OccursAt(s, m, i)
    ensures forall k | i <= k < i + |m| :: s[k] in m
    ensures forall k | 0 <= k < |m| :: m[k] == s[i + k] && m[k] in s
  {
    forall k | 0 <= k < |m| ensures m[k] == s[i + k] && m[k] in s {
      assert m[k] == s[i..i + |m|][k];
    }
    forall k | i <= k < i + |m| ensures s[k] in m {
      assert s[k] == m[k - i];
    }
  }

  lemma {:induction false} InOneWord(words: seq<string>, m: string)
    requires m != "" && ' ' !in m && Contains(Join(words, " "), m)
    ensures exists w | w in words :: Contains(w, m)
  {
    if |words| <= 1 {
      assert words != [] by { assert forall i: nat :: !OccursAt("", m, i); }
      assert Contains(words[0], m);
    } else {
      OnOneSide(words[0], Join(words[1..], " "), m);
      if Contains(words[0], m) {
        assert words[0] in words;
      } else {
        InOneWord(words[1..], m);
        var w :| w in words[1..] && Contains(w, m);
        assert w in words;
      }
    }
  }

  /** Cutting a text adds nothing but its sign. */
  lemma InWhatWasCut(s: string, max: nat, m: string)
    requires ELLIPSIS !in m && Contains(Truncate(s, max), m)
    ensures Contains(s, m)
  {
    var t := Truncate(s, max);
    var i: nat :| OccursAt(t, m, i);
    MarkIsThere(t, m, i);
    if |s| > max && m != "" {
      assert t[|t| - 1] == ELLIPSIS && i + |m| < |t|;
      assert t[i..i + |m|] == s[i..i + |m|];
      assert OccursAt(s, m, i);
    } else if m == "" {
      assert OccursAt(s, m, 0);
    }
  }

  /** What stands in a cleaned text without white space stood in the text before. */
  lemma CleaningJoinsNothing(s: string, max: nat, m: string)
    requires m != "" && Solid(m) && Contains(CleanText(s, max), m)
    ensures Contains(s, m)
  {
    InWhatWasCut(Join(Words(s), " "), max, m);
    InOneWord(Words(s), m);
    var w :| w in Words(s) && Contains(w, m);
    WordsAreContained(s);
    ContainedInContained(s, w, m);
  }

  /** And anything without the cut sign that stands in a single-spaced one. */
  lemma CuttingJoinsNothing(s: string, max: nat, m: string)
    requires SingleSpaced(s) && ELLIPSIS !in m && Contains(CleanText(s, max), m)
    ensures Contains(s, m)
  {
    SpacedIsJoined(s);
    InWhatWasCut(s, max, m);
  }

  // ------------------------------------------------------------------ in any case

  /** Where a mark stands in a text in any case, and what stands there as written. */
  lemma AsWritten(text: string, m: string) returns (written: string)
    requires Contains(Lower(text), m)
    ensures Contains(text, written) && Lower(written) == m
    ensures m != "" ==> written != ""
    ensures Solid(m) ==> Solid(written)
    ensures ELLIPSIS !in m ==> ELLIPSIS !in written
  {
    var i: nat :| OccursAt(Lower(text), m, i);
    written := text[i..i + |m|];
    SliceIsContained(text, i, i + |m|);
    LowerSlice(text, i, i + |m|);
    LowerKeepsSolid(written);
  }

  lemma LowerSlice(text: string, from: nat, to: nat)
    requires from <= to <= |text|
    ensures Lower(text[from..to]) == Lower(text)[from..to]
  {}

  lemma LowerKeepsSolid(s: string)
    ensures Solid(Lower(s)) ==> Solid(s)
    ensures ELLIPSIS !in Lower(s) ==> ELLIPSIS !in s
  {
    forall c | c in s ensures LowerChar(c) in Lower(s) {
      var k :| 0 <= k < |s| && s[k] == c;
      assert Lower(s)[k] in Lower(s);
    }
  }

  lemma LowerContains(text: string, written: string)
    requires Contains(text, written)
    ensures Contains(Lower(text), Lower(written))
  {
    var i: nat :| OccursAt(text, written, i);
    LowerSlice(text, i, i + |written|);
    assert OccursAt(Lower(text), Lower(written), i);
  }

  predicate SolidMarks(marks: seq<string>) {
    forall m | m in marks :: m != "" && Solid(m)
  }

  /** Marks without white space: none in a value means none in its cleaned text. */
  lemma SolidScanSpeaks(value: string, max: nat, marks: seq<string>)
    requires SolidMarks(marks) && !HasMark(value, marks)
    ensures !HasMark(CleanText(value, max), marks)
  {
    if HasMark(CleanText(value, max), marks) {
      var m :| m in marks && Contains(Lower(CleanText(value, max)), m);
      var written := AsWritten(CleanText(value, max), m);
      CleaningJoinsNothing(value, max, written);
      LowerContains(value, written);
    }
  }

  /** Marks with spaces besides: the value must be single-spaced. */
  lemma SpacedScanSpeaks(value: string, max: nat, marks: seq<string>)
    requires SingleSpaced(value) && !HasMark(value, marks) && forall m | m in marks :: ELLIPSIS !in m
    ensures !HasMark(CleanText(value, max), marks)
  {
    if HasMark(CleanText(value, max), marks) {
      var m :| m in marks && Contains(Lower(CleanText(value, max)), m);
      var written := AsWritten(CleanText(value, max), m);
      CuttingJoinsNothing(value, max, written);
      LowerContains(value, written);
    }
  }

  /** A mark of printable ASCII characters from `first` on, without a backquote or backslash. */
  predicate Ascii(m: string, first: char) {
    m != "" && forall i | 0 <= i < |m| :: first <= m[i] <= '~' && m[i] != '`' && m[i] != '\\'
  }

  predicate InUserAsked(c: char) {
    c in {'u', 's', 'e', 'r', ' ', 'a', 'k', 'd'}
  }

  /** What the listed marks have in common; all but "user asked" have a character that is not in it. */
  predicate IsMark(m: string, first: char) {
    && Ascii(m, first) && |m| >= 4 && (|m| == 4 ==> m[0] == 'g' || m[0] == 'a')
    && (!InUserAsked(m[0]) || !InUserAsked(m[2]) || !InUserAsked(m[|m| - 1]) || (|m| > 5 && m[0] == 'u' && m[5] == 'a'))
  }

  predicate AreMarks(marks: seq<string>, first: char) {
    forall m | m in marks :: IsMark(m, first)
  }

  lemma MarksTogether(a: seq<string>, b: seq<string>, first: char)
    requires AreMarks(a, first) && AreMarks(b, first)
    ensures AreMarks(a + b, first)
  {}

  lemma PublishPrefixesAreMarks()
    ensures AreMarks(PUBLISH_PREFIXES, '!')
  {}

  lemma PublishKeysAreMarks()
    ensures AreMarks(PUBLISH_KEYS, '!')
  {}

  lemma PublishNamesAreMarks()
    ensures AreMarks(PUBLISH_NAMES, '!')
  {}

  lemma ReportTokensAreMarks()
    ensures AreMarks(REPORT_TOKENS, '!')
  {}

  lemma ReportKeysAreMarks()
    ensures AreMarks(REPORT_KEYS, '!')
  {}

  lemma ReportNamesAreMarks()
    ensures AreMarks(REPORT_NAMES, '!')
  {}

  lemma ReportLabelsAreMarks()
    ensures AreMarks(REPORT_LABELS, '!')
  {}

  lemma KeyPhrasesAreMarks()
    ensures AreMarks(KEY_PHRASES, ' ')
  {}

  lemma PromptPhrasesAreMarks()
    ensures AreMarks(PROMPT_PHRASES, ' ')
  {}

  lemma RawPhrasesAreMarks()
    ensures AreMarks(RAW_PHRASES, ' ')
  {}

  lemma PublishMarksAreMarks()
    ensures AreMarks(PUBLISH_MARKS, '!')
  {
    PublishPrefixesAreMarks();
    PublishKeysAreMarks();
    PublishNamesAreMarks();
    MarksTogether(PUBLISH_KEYS, PUBLISH_NAMES, '!');
    MarksTogether(PUBLISH_PREFIXES, PUBLISH_KEYS + PUBLISH_NAMES, '!');
  }

  lemma ReportWordsAreMarks()
    ensures AreMarks(REPORT_WORDS, '!')
  {
    ReportTokensAreMarks();
    ReportKeysAreMarks();
    ReportNamesAreMarks();
    ReportLabelsAreMarks();
    MarksTogether(REPORT_TOKENS, REPORT_KEYS, '!');
    MarksTogether(REPORT_NAMES, REPORT_LABELS, '!');
    MarksTogether(REPORT_TOKENS + REPORT_KEYS, REPORT_NAMES + REPORT_LABELS, '!');
  }

  lemma ReportPhrasesAreMarks()
    ensures AreMarks(REPORT_PHRASES, ' ')
  {
    KeyPhrasesAreMarks();
    PromptPhrasesAreMarks();
    RawPhrasesAreMarks();
    MarksTogether(PROMPT_PHRASES, RAW_PHRASES, ' ');
    MarksTogether(KEY_PHRASES, PROMPT_PHRASES + RAW_PHRASES, ' ');
  }

  lemma WordMarksAreMarks()
    ensures AreMarks(WORD_MARKS, '!')
  {
    PublishMarksAreMarks();
    ReportWordsAreMarks();
    MarksTogether(PUBLISH_MARKS, REPORT_WORDS, '!');
  }

  lemma SpacesAreAllowed(marks: seq<string>)
    requires AreMarks(marks, '!')
    ensures AreMarks(marks, ' ') && SolidMarks(marks)
  {}

  lemma AllMarksAreMarks()
    ensures AreMarks(ALL_MARKS, ' ') && SolidMarks(WORD_MARKS)
  {
    WordMarksAreMarks();
    SpacesAreAllowed(WORD_MARKS);
    ReportPhrasesAreMarks();
    MarksTogether(WORD_MARKS, REPORT_PHRASES, ' ');
  }

  /**
   * Cleaning: finding no word mark in a value says that there is none in its cleaned text;
   * finding no mark at all says so too when the value is single-spaced.
   */
  lemma CleanedScanSpeaks(value: string, max: nat)
    ensures !HasMark(value, WORD_MARKS) ==> !HasMark(CleanText(value, max), WORD_MARKS)
    ensures SingleSpaced(value) && !HasMark(value, ALL_MARKS) ==> !HasMark(CleanText(value, max), ALL_MARKS)
  {
    AllMarksAreMarks();
    if !HasMark(value, WORD_MARKS) {
      SolidScanSpeaks(value, max, WORD_MARKS);
    }
    if SingleSpaced(value) && !HasMark(value, ALL_MARKS) {
      SpacedScanSpeaks(value, max, ALL_MARKS);
    }
  }

  /** The same of what is published of a detail without triple backquotes. */
  lemma FencedScanSpeaks(value: string, max: nat)
    requires FenceFree(value)
    ensures !HasMark(value, WORD_MARKS) ==> !HasMark(FencedBody(value, max), WORD_MARKS)
    ensures SingleSpaced(value) && !HasMark(value, ALL_MARKS) ==> !HasMark(FencedBody(value, max), ALL_MARKS)
  {
    RemovingKeepsIff(value);
    CleanedScanSpeaks(value, max);
  }

  // ------------------------------------------------------------------ every list of word marks

  /** Where a text was cut counts as white space. */
  function Blanked(s: string): (t: string)
    ensures |t| == |s| && forall i | 0 <= i < |s| :: t[i] == if s[i] == ELLIPSIS then ' ' else s[i]
  {
    seq(|s|, i requires 0 <= i < |s| => if s[i] == ELLIPSIS then ' ' else s[i])
  }

  lemma InTheTail(s: string, m: string, i: nat, end: nat)
    requires OccursAt(s, m, i) && end <= i
    ensures Contains(s[end..], m)
  {
    assert s[end..][i - end..i - end + |m|] == s[i..i + |m|];
    assert OccursAt(s[end..], m, i - end);
  }

  lemma InTheFront(s: string, m: string, i: nat, end: nat)
    requires OccursAt(s, m, i) && i < end <= |s| && Solid(m) && (end == |s| || IsWhitespace(s[end]))
    ensures Contains(s[..end], m)
  {
    MarkIsThere(s, m, i);
    assert i + |m| <= end;
    assert s[..end][i..i + |m|] == s[i..i + |m|];
    assert OccursAt(s[..end], m, i);
  }

  lemma {:induction false} InAWord(s: string, m: string)
    requires m != "" && Solid(m) && Contains(s, m)
    ensures exists w | w in Words(s) :: Contains(w, m)
  {
    var i: nat :| OccursAt(s, m, i);
    MarkIsThere(s, m, i);
    assert s[i] in m;
    var end := if IsWhitespace(s[0]) then 1 else WordEnd(s, 0);
    if end <= i {
      InTheTail(s, m, i, end);
      InAWord(s[end..], m);
      var w :| w in Words(s[end..]) && Contains(w, m);
      assert w in Words(s);
    } else {
      assert !IsWhitespace(s[0]);
      InTheFront(s, m, i, end);
      assert Words(s)[0] == s[..end] && s[..end] in Words(s);
    }
  }

  lemma BlankingKeeps(s: string, m: string)
    requires Solid(m) && (Contains(s, m) || Contains(Blanked(s), m))
    ensures Contains(s, m) && Contains(Blanked(s), m)
  {
    if Contains(s, m) {
      var i: nat :| OccursAt(s, m, i);
      MarkIsThere(s, m, i);
      assert Blanked(s)[i..i + |m|] == m;
      assert OccursAt(Blanked(s), m, i);
    } else {
      var i: nat :| OccursAt(Blanked(s), m, i);
      MarkIsThere(Blanked(s), m, i);
      assert s[i..i + |m|] == m;
      assert OccursAt(s, m, i);
    }
  }

  /** Whatever word marks are listed, a scan of the value speaks for the published text. */
  ghost predicate WordScansSpeak(value: string, published: string) {
    forall marks | SolidMarks(marks) && !HasMark(value, marks) :: !HasMark(published, marks)
  }

  lemma BlankedWordsAreSolid(s: string)
    ensures forall w | w in Words(Blanked(s)) :: w != "" && Solid(w) && Contains(s, w)
  {
    var t := Blanked(s);
    WordsAreContained(t);
    forall w | w in Words(t) ensures w != "" && Solid(w) && Contains(s, w) {
      forall c | c in w ensures c != ELLIPSIS {
        assert c in t;
      }
      BlankingKeeps(s, w);
    }
  }

  /** Each word that is left when the fences are gone stands in the value, in any case. */
  ghost predicate WordsStand(value: string) {
    forall w | w in Words(Blanked(RemoveFences(value))) :: Contains(Lower(value), Lower(w))
  }

  lemma StandingWordsSpeak(value: string, max: nat)
    requires WordsStand(value)
    ensures WordScansSpeak(value, FencedBody(value, max))
  {
    var rest, published := RemoveFences(value), FencedBody(value, max);
    forall marks | SolidMarks(marks) && HasMark(published, marks) ensures HasMark(value, marks) {
      var m :| m in marks && Contains(Lower(published), m);
      var written := AsWritten(published, m);
      CleaningJoinsNothing(rest, max, written);
      BlankingKeeps(rest, written);
      InAWord(Blanked(rest), written);
      var w :| w in Words(Blanked(rest)) && Contains(w, written);
      LowerContains(w, written);
      ContainedInContained(Lower(value), Lower(w), m);
    }
  }

  lemma {:induction false} WordIsInJoined(words: seq<string>, w: string)
    requires w in words
    ensures Contains(Join(words, " "), w)
  {
    if |words| == 1 {
      SliceIsContained(w, 0, |w|);
      assert w[0..|w|] == w;
    } else {
      var all, later := Join(words, " "), Join(words[1..], " ");
      if w == words[0] {
        SliceIsContained(all, 0, |w|);
        assert all[0..|w|] == w;
      } else {
        WordIsInJoined(words[1..], w);
        SliceIsContained(all, |words[0]| + 1, |all|);
        assert all[|words[0]| + 1..|all|] == later;
        ContainedInContained(all, later, w);
      }
    }
  }

  /** Cleaning loses no word of a text that is not cut. */
  lemma WordIsPublished(s: string, max: nat, w: string)
    requires |s| <= max && w != "" && Solid(w) && Contains(s, w)
    ensures Contains(CleanText(s, max), w)
  {
    JoinedIsNoLonger(s);
    InAWord(s, w);
    var v :| v in Words(s) && Contains(v, w);
    WordIsInJoined(Words(s), v);
    ContainedInContained(Join(Words(s), " "), v, w);
  }

  lemma LowerStaysSolid(s: string)
    requires Solid(s)
    ensures Solid(Lower(s))
  {
    forall c | c in Lower(s) ensures !IsWhitespace(c) && c != ELLIPSIS {
      var k :| 0 <= k < |s| && Lower(s)[k] == c;
      assert s[k] in s;
    }
  }

  lemma SpeakingWordsStand(value: string, max: nat)
    requires |RemoveFences(value)| <= max && WordScansSpeak(value, FencedBody(value, max))
    ensures WordsStand(value)
  {
    var rest, published := RemoveFences(value), FencedBody(value, max);
    BlankedWordsAreSolid(rest);
    forall w | w in Words(Blanked(rest)) ensures Contains(Lower(value), Lower(w)) {
      WordIsPublished(rest, max, w);
      LowerContains(published, w);
      LowerStaysSolid(w);
      var marks := [Lower(w)];
      assert Lower(w) in marks && SolidMarks(marks) && HasMark(published, marks);
      assert HasMark(value, marks);
    }
  }

  /**
   * Whatever word marks are listed, finding none in a detail says that none is published of it,
   * if each word left without its fences stands in it; and, for a detail that fits its limit,
   * only if.
   */
  lemma FencedWordScansSpeakIff(value: string, max: nat)
    ensures WordsStand(value) ==> WordScansSpeak(value, FencedBody(value, max))
    ensures |RemoveFences(value)| <= max ==> (WordScansSpeak(value, FencedBody(value, max)) <==> WordsStand(value))
  {
    if WordsStand(value) {
      StandingWordsSpeak(value, max);
    } else if |RemoveFences(value)| <= max && WordScansSpeak(value, FencedBody(value, max)) {
      SpeakingWordsStand(value, max);
    }
  }

  /** The fences that are removed, made blank instead. */
  function BlankFences(s: string): (t: string)
    ensures |t| == |s| && forall i | 0 <= i < |s| :: t[i] == s[i] || t[i] == ' '
  {
    if |s| < 3 then s
    else if FenceAt(s, 0) then "   " + BlankFences(s[3..])
    else [s[0]] + BlankFences(s[1..])
  }

  /** The fences stand between words: removing them gives the words that blanks would. */
  predicate SplitsNoWord(value: string) {
    Words(RemoveFences(value)) == Words(BlankFences(value))
  }

  /** Fences that split no word leave every word standing. */
  lemma UnsplitWordsStand(value: string)
    requires SplitsNoWord(value)
    ensures WordsStand(value)
  {
    var rest := RemoveFences(value);
    BlankedWordsAreSolid(rest);
    forall w | w in Words(Blanked(rest)) ensures Contains(Lower(value), Lower(w)) {
      InAWord(rest, w);
      var v :| v in Words(rest) && Contains(v, w);
      WordsAreContained(BlankFences(value));
      ContainedInContained(BlankFences(value), v, w);
      BlankedFencesAdd(value, w);
      LowerContains(value, w);
    }
  }

  lemma BlankedFencesAdd(value: string, w: string)
    requires Solid(w) && Contains(BlankFences(value), w)
    ensures Contains(value, w)
  {
    var t := BlankFences(value);
    var i: nat :| OccursAt(t, w, i);
    MarkIsThere(t, w, i);
    assert value[i..i + |w|] == w;
    assert OccursAt(value, w, i);
  }

  // ------------------------------------------------------------------ what slips through

  lemma {:induction false} RemovesOne(a: string, b: string)
    requires '`' !in a && FenceFree(b)
    ensures RemoveFences(a + ("```" + b)) == a + b
  {
    if a == "" {
      assert ("```" + b)[3..] == b && a + ("```" + b) == "```" + b && FenceAt("```" + b, 0);
      RemovingKeepsIff(b);
    } else {
      var t := a[1..] + ("```" + b);
      RemovesOne(a[1..], b);
      assert a == [a[0]] + a[1..];
      assert a + ("```" + b) == [a[0]] + t && ([a[0]] + t)[1..] == t;
    }
  }

  /** A fence keeps the two halves of a text apart in the scan, and is gone in what is published. */
  lemma SplitKeyIsJoined(a: string, b: string)
    requires '`' !in a && FenceFree(b) && SingleSpaced(a + b) && |a + b| <= 350
    ensures FencedBody(a + ("```" + b), 350) == a + b
  {
    RemovesOne(a, b);
    CleanTextKeepsIff(a + b, 350);
  }

  lemma ApartInTheScan(a: string, b: string, m: string)
    requires m != "" && '`' !in m && Contains(a + ("```" + b), m)
    ensures Contains(a, m) || Contains(b, m)
  {
    var s := a + ("```" + b);
    var i: nat :| OccursAt(s, m, i);
    MarkIsThere(s, m, i);
    assert s[|a|] == '`' && s[|a| + 1] == '`' && s[|a| + 2] == '`';
    assert !(i <= |a| < i + |m|) && !(i <= |a| + 1 < i + |m|) && !(i <= |a| + 2 < i + |m|);
    if i + |m| <= |a| {
      assert s[i..i + |m|] == a[i..i + |m|];
      assert OccursAt(a, m, i);
    } else {
      var j := i - |a| - 3;
      assert s[i..i + |m|] == b[j..j + |m|];
      assert OccursAt(b, m, j);
    }
  }

  /** Two halves without a mark that together have one slip through with a fence between them. */
  lemma SplitMarkSlipsThrough(a: string, b: string, marks: seq<string>) returns (d: Issue, piece: Piece)
    requires forall m | m in marks :: m != "" && '`' !in m
    requires '`' !in a && FenceFree(b) && SingleSpaced(a + b) && |a + b| <= 350
    requires !HasMark(a, marks) && !HasMark(b, marks) && HasMark(a + b, marks)
    ensures SlipsThrough(d, MarkScan(marks), piece) && piece.value == a + ("```" + b)
  {
    var detail := a + ("```" + b);
    SplitKeyIsJoined(a, b);
    assert Lower(detail) == Lower(a) + ("```" + Lower(b));
    if HasMark(detail, marks) {
      var m :| m in marks && Contains(Lower(detail), m);
      ApartInTheScan(Lower(a), Lower(b), m);
    }
    d, piece := WorkaroundSlipsThrough(detail, MarkScan(marks));
  }

  lemma TooShort(s: string, m: string)
    requires Contains(s, m)
    ensures |m| <= |s| && (|m| == |s| ==> m == s)
  {
    var i: nat :| OccursAt(s, m, i);
    assert |m| == |s| ==> i == 0 && s[0..|s|] == s;
  }

  /** The detail "sk-a```nt-x" passes the scan for marks, and "sk-ant-x" is published of it. */
  lemma SplitPrefixSlipsThrough() returns (d: Issue, piece: Piece)
    ensures SlipsThrough(d, MarkScan(ALL_MARKS), piece) && piece.value == "sk-a" + ("```" + "nt-x")
  {
    AllMarksAreMarks();
    HalvesHaveNoMark(ALL_MARKS);
    WholeKeyHasMark();
    HalvesAreWords();
    d, piece := SplitMarkSlipsThrough("sk-a", "nt-x", ALL_MARKS);
  }

  lemma HalvesHaveNoMark(marks: seq<string>)
    requires AreMarks(marks, ' ')
    ensures !HasMark("sk-a", marks) && !HasMark("nt-x", marks)
  {
    ShortHasNoMark("sk-a", marks);
    ShortHasNoMark("nt-x", marks);
  }

  lemma HalvesAreWords()
    ensures '`' !in "sk-a" && FenceFree("nt-x") && SingleSpaced("sk-a" + "nt-x") && |"sk-a" + "nt-x"| <= 350
  {}

  lemma WholeKeyHasMark()
    ensures HasMark("sk-a" + "nt-x", ALL_MARKS)
  {
    var whole := "sk-a" + "nt-x";
    assert Lower(whole) == whole && OccursAt(whole, "sk-ant-", 0);
    assert "sk-ant-" in PUBLISH_KEYS by { assert PUBLISH_KEYS[0] == "sk-ant-"; }
    assert "sk-ant-" in PUBLISH_MARKS && "sk-ant-" in ALL_MARKS;
  }

  lemma ShortHasNoMark(s: string, marks: seq<string>)
    requires AreMarks(marks, ' ') && |s| == 4 && LowerChar(s[0]) != 'g' && LowerChar(s[0]) != 'a'
    ensures !HasMark(s, marks)
  {
    forall m | m in marks ensures !Contains(Lower(s), m) {
      if Contains(Lower(s), m) {
        TooShort(Lower(s), m);
      }
    }
  }

  // ------------------------------------------------------------------ phrases

  lemma {:induction false} EndOfWord(s: string, end: nat, i: nat)
    requires i <= end <= |s| && (end == |s| || IsWhitespace(s[end]))
    requires forall k | i <= k < end :: !IsWhitespace(s[k])
    ensures WordEnd(s, i) == end
    decreases end - i
  {
    if i < end {
      EndOfWord(s, end, i + 1);
    }
  }

  lemma WordFirst(a: string, rest: string)
    requires IsWord(a) && (rest == "" || IsWhitespace(rest[0]))
    ensures Words(a + rest) == [a] + Words(rest)
  {
    var s := a + rest;
    assert forall k | 0 <= k < |a| :: s[k] == a[k] && a[k] in a;
    EndOfWord(s, |a|, 0);
    assert s[..|a|] == a && s[|a|..] == rest;
  }

  lemma BlankFirst(rest: string)
    ensures Words([' '] + rest) == Words(rest)
  {
    assert ([' '] + rest)[1..] == rest;
  }

  /** Two spaces between words are published as one. */
  lemma TwoSpacesBecomeOne(a: string, b: string, max: nat)
    requires IsWord(a) && IsWord(b) && |a| + 1 + |b| <= max
    ensures CleanText(a + ([' '] + ([' '] + b)), max) == a + " " + b
  {
    WordFirst(a, [' '] + ([' '] + b));
    BlankFirst([' '] + b);
    BlankFirst(b);
    WordFirst(b, "");
    assert b + "" == b && [b] + Words("") == [b];
    var words := [a] + [b];
    assert Words(a + ([' '] + ([' '] + b))) == words && words[1..] == [b];
    assert Join(words, " ") == a + " " + b;
  }

  /** A text of the letters of "user asked" that does not continue as the phrase does. */
  predicate NotThePhrase(s: string) {
    && |s| > 5 && s[5] != 'a'
    && (forall k | 0 <= k < |s| :: InUserAsked(s[k]) && (s[k] == 'u' ==> k == 0))
  }

  lemma NotThePhraseHasNoMark(s: string, marks: seq<string>)
    requires AreMarks(marks, ' ') && NotThePhrase(Lower(s))
    ensures !HasMark(s, marks)
  {
    forall m | m in marks ensures !Contains(Lower(s), m) {
      if i: nat :| OccursAt(Lower(s), m, i) {
        MarkIsThere(Lower(s), m, i);
      }
    }
  }

  lemma ApartByTwoSpaces()
    ensures NotThePhrase(Lower("user" + ([' '] + ([' '] + "asked"))))
  {
    var s := "user" + ([' '] + ([' '] + "asked"));
    assert |s| == 11 && Lower(s) == s;
  }

  /** The value "user  asked" passes the scan, and "user asked" is published of it, as a detail or inline. */
  lemma SpacedPhraseSlipsThrough() returns (d: Issue, piece: Piece)
    ensures SlipsThrough(d, MarkScan(ALL_MARKS), piece) && piece.value == "user" + ([' '] + ([' '] + "asked"))
    ensures CleanText(piece.value, 350) == "user" + " " + "asked"
  {
    var detail := "user" + ([' '] + ([' '] + "asked"));
    AllMarksAreMarks();
    ApartByTwoSpaces();
    NotThePhraseHasNoMark(detail, ALL_MARKS);
    TwoSpacesBecomeOne("user", "asked", 350);
    PhraseHasMark();
    PhraseHasNoFence(detail);
    RemovingKeepsIff(detail);
    d, piece := WorkaroundSlipsThrough(detail, MarkScan(ALL_MARKS));
  }

  lemma PhraseHasMark()
    ensures HasMark("user" + " " + "asked", ALL_MARKS)
  {
    var whole := "user" + " " + "asked";
    assert Lower(whole) == whole && whole == "user asked" && OccursAt(whole, "user asked", 0);
    assert "user asked" in PROMPT_PHRASES by { assert PROMPT_PHRASES[1] == "user asked"; }
    assert "user asked" in REPORT_PHRASES && "user asked" in ALL_MARKS;
  }

  lemma PhraseHasNoFence(s: string)
    requires s == "user" + ([' '] + ([' '] + "asked"))
    ensures FenceFree(s)
  {
    assert forall c | c in s :: c != '`';
  }
}
