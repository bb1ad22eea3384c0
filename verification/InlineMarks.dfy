/** Escaping and neutralising put no mark together: what a clear scan says of an inline text. */
module InlineMarks {
  import opened Substrings
  import opened IssueText
  import opened IssueBody
  import opened PublishedText
  import opened PublicationMarks

  /** What escaping and neutralising put in. */
  predicate IsPad(c: char) {
    c == '\\' || c == ZWSP
  }

  /** The first text is the second with backslashes and zero-width spaces put in. */
  predicate Pads(t: string, s: string) {
    if t == "" then s == ""
    else
      || (s != "" && t[0] == s[0] && Pads(t[1..], s[1..]))
      || (IsPad(t[0]) && Pads(t[1..], s))
  }

  lemma PadsCons(c: char, t: string, s: string)
    requires Pads(t, s)
    ensures Pads([c] + t, [c] + s)
    ensures IsPad(c) ==> Pads([c] + t, s)
  {
    assert ([c] + t)[1..] == t && ([c] + s)[1..] == s;
  }

  /** A character, a pad, and characters after it. */
  lemma PadsAfter(front: string, back: string, t: string, s: string)
    requires Pads(t, s)
    ensures Pads(front + [ZWSP] + back + t, front + back + s)
    decreases |front| + |back|
  {
    if front != "" {
      PadsAfter(front[1..], back, t, s);
      PadsCons(front[0], front[1..] + [ZWSP] + back + t, front[1..] + back + s);
      assert front == [front[0]] + front[1..];
      assert front + [ZWSP] + back + t == [front[0]] + (front[1..] + [ZWSP] + back + t);
      assert front + back + s == [front[0]] + (front[1..] + back + s);
    } else {
      PadsWith(back, t, s);
      PadsCons(ZWSP, back + t, back + s);
      assert "" + [ZWSP] + back + t == [ZWSP] + (back + t) && "" + back + s == back + s;
    }
  }

  lemma {:induction false} PadsWith(back: string, t: string, s: string)
    requires Pads(t, s)
    ensures Pads(back + t, back + s)
  {
    if back == "" {
      assert "" + t == t && "" + s == s;
    } else {
      PadsWith(back[1..], t, s);
      PadsCons(back[0], back[1..] + t, back[1..] + s);
      assert back == [back[0]] + back[1..];
      assert back + t == [back[0]] + (back[1..] + t) && back + s == [back[0]] + (back[1..] + s);
    }
  }

  lemma {:induction false} MarkingPads(s: string)
    ensures Pads(MarkReferences(s), s)
  {
    if s != "" {
      var rest := MarkReferences(s[1..]);
      MarkingPads(s[1..]);
      assert s == [s[0]] + s[1..];
      if s[0] == '@' || s[0] == '#' {
        PadsAfter([s[0]], "", rest, s[1..]);
        assert MarkReferences(s) == [s[0]] + [ZWSP] + "" + rest && s == [s[0]] + "" + s[1..];
      } else {
        PadsCons(s[0], rest, s[1..]);
      }
    }
  }

  lemma {:induction false} BreakingSchemesPads(s: string)
    ensures Pads(BreakSchemes(s), s)
  {
    if s == "" {
    } else if SchemeAt(s, 0) {
      var rest := BreakSchemes(s[3..]);
      BreakingSchemesPads(s[3..]);
      PadsAfter([':'], ['/', '/'], rest, s[3..]);
      assert BreakSchemes(s) == [':'] + [ZWSP] + ['/', '/'] + rest;
      assert s == [':'] + ['/', '/'] + s[3..];
    } else {
      BreakingSchemesPads(s[1..]);
      PadsCons(s[0], BreakSchemes(s[1..]), s[1..]);
      assert s == [s[0]] + s[1..];
    }
  }

  lemma {:induction false} BreakingWwwPads(s: string)
    ensures Pads(BreakWww(s), s)
  {
    if s == "" {
    } else if WwwAt(s, 0) {
      var www, rest := [s[0], s[1], s[2]], BreakWww(s[4..]);
      BreakingWwwPads(s[4..]);
      PadsAfter(www, ['.'], rest, s[4..]);
      assert BreakWww(s) == www + [ZWSP] + ['.'] + rest;
      assert s == www + ['.'] + s[4..];
    } else {
      BreakingWwwPads(s[1..]);
      PadsCons(s[0], BreakWww(s[1..]), s[1..]);
      assert s == [s[0]] + s[1..];
    }
  }

  lemma {:induction false} EscapingPads(s: string, first: bool)
    ensures Pads(EscapeFrom(s, first), s)
  {
    if s != "" {
      var rest := EscapeFrom(s[1..], false);
      EscapingPads(s[1..], false);
      assert s == [s[0]] + s[1..];
      PadsCons(s[0], rest, s[1..]);
      if IsMarkdown(s[0]) || (first && s[0] in {'-', '+', '>'}) {
        PadsCons('\\', [s[0]] + rest, s);
        assert EscapeFrom(s, first) == ['\\'] + ([s[0]] + rest);
      }
    }
  }

  // ------------------------------------------------------------------ marks in padded texts

  predicate NoPads(m: string) {
    forall c | c in m :: !IsPad(c)
  }

  lemma {:induction false} FrontWasThere(t: string, s: string, m: string)
    requires Pads(t, s) && NoPads(m) && |m| <= |t| && t[..|m|] == m
    ensures |m| <= |s| && s[..|m|] == m
  {
    if m != "" {
      assert t[0] == m[0] && m[0] in m;
      assert t[1..][..|m| - 1] == m[1..];
      FrontWasThere(t[1..], s[1..], m[1..]);
      assert m == [m[0]] + m[1..] && s[..|m|] == [s[0]] + s[1..][..|m| - 1];
    }
  }

  /** A mark without pads that stands in a padded text stood there before. */
  lemma {:induction false} PaddingAddsNoMark(t: string, s: string, m: string, i: nat)
    requires Pads(t, s) && NoPads(m) && m != "" && OccursAt(t, m, i)
    ensures Contains(s, m)
    decreases |t|
  {
    if i == 0 {
      assert t[..|m|] == t[0..0 + |m|];
      FrontWasThere(t, s, m);
      assert OccursAt(s, m, 0);
    } else {
      assert t[1..][i - 1..i - 1 + |m|] == t[i..i + |m|];
      if s != "" && t[0] == s[0] && Pads(t[1..], s[1..]) {
        PaddingAddsNoMark(t[1..], s[1..], m, i - 1);
        SliceIsContained(s, 1, |s|);
        assert s[1..|s|] == s[1..];
        ContainedInContained(s, s[1..], m);
      } else {
        PaddingAddsNoMark(t[1..], s, m, i - 1);
      }
    }
  }

  lemma PaddedHasIt(t: string, s: string, m: string)
    requires Pads(t, s) && NoPads(m) && m != "" && Contains(t, m)
    ensures Contains(s, m)
  {
    var i: nat :| OccursAt(t, m, i);
    PaddingAddsNoMark(t, s, m, i);
  }

  lemma InlineAddsNoMark(cleaned: string, m: string)
    requires NoPads(m) && m != "" && Contains(EscapeInline(Neutralize(cleaned)), m)
    ensures Contains(cleaned, m)
  {
    var a, b := MarkReferences(cleaned), BreakSchemes(MarkReferences(cleaned));
    EscapingPads(Neutralize(cleaned), true);
    PaddedHasIt(EscapeInline(Neutralize(cleaned)), Neutralize(cleaned), m);
    BreakingWwwPads(b);
    PaddedHasIt(BreakWww(b), b, m);
    BreakingSchemesPads(a);
    PaddedHasIt(b, a, m);
    MarkingPads(cleaned);
    PaddedHasIt(a, cleaned, m);
  }

  lemma LowerKeepsNoPads(s: string)
    requires NoPads(Lower(s))
    ensures NoPads(s)
  {
    forall c | c in s ensures !IsPad(c) {
      var k :| 0 <= k < |s| && s[k] == c;
      assert Lower(s)[k] in Lower(s);
    }
  }

  lemma InlineKeepsScan(cleaned: string, marks: seq<string>)
    requires !HasMark(cleaned, marks) && forall m | m in marks :: m != "" && NoPads(m)
    ensures !HasMark(EscapeInline(Neutralize(cleaned)), marks)
  {
    var text := EscapeInline(Neutralize(cleaned));
    if HasMark(text, marks) {
      var m :| m in marks && Contains(Lower(text), m);
      var written := AsWritten(text, m);
      LowerKeepsNoPads(written);
      InlineAddsNoMark(cleaned, written);
      LowerContains(cleaned, written);
    }
  }

  lemma MarksHaveNoPads(marks: seq<string>)
    requires AreMarks(marks, ' ')
    ensures forall m | m in marks :: m != "" && NoPads(m)
  {
    forall m | m in marks ensures m != "" && NoPads(m) {
      assert Ascii(m, ' ');
    }
  }

  /** As a reader sees an inline text: without escapes and zero-width spaces. */
  function Read(text: string): string {
    Visible(Unescape(text))
  }

  lemma {:induction false} JoinedCharacters(words: seq<string>, c: char)
    requires c in Join(words, " ")
    ensures c == ' ' || exists w | w in words :: c in w
  {
    if |words| > 1 && c !in words[0] && c != ' ' {
      JoinedCharacters(words[1..], c);
      var w :| w in words[1..] && c in w;
      assert w in words;
    } else if words != [] {
      assert words[0] in words;
    }
  }

  lemma CleanedIsRead(value: string, max: nat)
    requires ZWSP !in value
    ensures Read(InlineText(Clear(value), max)) == CleanText(value, max)
  {
    var whole, cleaned := Join(Words(value), " "), CleanText(value, max);
    forall c | c in cleaned ensures c != ZWSP {
      if c in whole {
        JoinedCharacters(Words(value), c);
      }
    }
    InlineReadsAsCleaned(value, max);
    VisibleWithoutZwsp(cleaned);
  }

  /**
   * An inline value as it is published: finding no word mark in the value says that there is
   * none in the published text; finding no mark at all says so too when the value is
   * single-spaced. For a value without zero-width spaces both hold of the text as it is read.
   */
  lemma InlineScanSpeaks(value: string, max: nat)
    ensures var text := InlineText(Clear(value), max);
            && (!HasMark(value, WORD_MARKS) ==> !HasMark(text, WORD_MARKS))
            && (SingleSpaced(value) && !HasMark(value, ALL_MARKS) ==> !HasMark(text, ALL_MARKS))
    ensures var read := Read(InlineText(Clear(value), max));
            && (ZWSP !in value && !HasMark(value, WORD_MARKS) ==> !HasMark(read, WORD_MARKS))
            && (ZWSP !in value && SingleSpaced(value) && !HasMark(value, ALL_MARKS) ==> !HasMark(read, ALL_MARKS))
  {
    CleanedScanSpeaks(value, max);
    AllMarksAreMarks();
    MarksHaveNoPads(ALL_MARKS);
    assert forall m | m in WORD_MARKS :: m in ALL_MARKS;
    if !HasMark(value, WORD_MARKS) {
      InlineKeepsScan(CleanText(value, max), WORD_MARKS);
    }
    if SingleSpaced(value) && !HasMark(value, ALL_MARKS) {
      InlineKeepsScan(CleanText(value, max), ALL_MARKS);
    }
    if ZWSP !in value {
      CleanedIsRead(value, max);
    }
  }
}
