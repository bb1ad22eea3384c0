/**
 * What the text functions do to any text, said so that each is determined: how it is left alone,
 * and what happens at the first place where it is not.
 */
module TextReadings {
  import opened IssueText
  import opened IssueCap

  // ------------------------------------------------------------------ white space and length

  lemma WhitespaceIs(c: char)
    ensures IsWhitespace(c) <==>
            9 <= c as int <= 13 || c as int == 0x20 || c as int == 0x85 || c as int == 0xA0 || c as int == 0x1680
            || 0x2000 <= c as int <= 0x200A || c as int == 0x2028 || c as int == 0x2029 || c as int == 0x202F
            || c as int == 0x205F || c as int == 0x3000
  {}

  lemma {:induction false} WordEndAgain(a: string, b: string, i: nat)
    requires i <= |a| && b != "" && IsWhitespace(b[0])
    ensures WordEnd(a + b, i) == WordEnd(a, i)
    decreases |a| - i
  {
    if i < |a| && !IsWhitespace(a[i]) {
      WordEndAgain(a, b, i + 1);
    }
  }

  /** White space ends a word, whatever stands on either side. */
  lemma {:induction false} WordsSplit(a: string, w: char, b: string)
    requires IsWhitespace(w)
    ensures Words(a + [w] + b) == Words(a) + Words(b)
    decreases |a|
  {
    var all := a + [w] + b;
    assert all == a + ([w] + b);
    if a == "" {
      assert all[1..] == b;
    } else if IsWhitespace(a[0]) {
      assert all[1..] == a[1..] + [w] + b;
      WordsSplit(a[1..], w, b);
    } else {
      var end := WordEnd(a, 0);
      WordEndAgain(a, [w] + b, 0);
      assert all[..end] == a[..end] && all[end..] == a[end..] + [w] + b;
      WordsSplit(a[end..], w, b);
    }
  }

  /** Any white space reads as one space, two in a row as one, and none counts at either end. */
  lemma CleaningCollapses(a: string, v: char, w: char, b: string, max: nat)
    requires IsWhitespace(v) && IsWhitespace(w)
    ensures CleanText(a + [w] + b, max) == CleanText(a + " " + b, max)
    ensures CleanText(a + [v] + ([w] + b), max) == CleanText(a + [w] + b, max)
    ensures CleanText([w] + b, max) == CleanText(b, max) && CleanText(a + [w], max) == CleanText(a, max)
  {
    WordsSplit(a, w, b);
    WordsSplit(a, ' ', b);
    WordsSplit(a, v, [w] + b);
    WordsSplit("", w, b);
    assert "" + [w] + b == [w] + b;
    WordsSplit(a, w, "");
    assert a + [w] + "" == a + [w] && Words(a) + [] == Words(a);
  }

  /** What is too long keeps its first characters, and its last becomes an ellipsis. */
  lemma CleaningCuts(s: string, max: nat)
    requires 0 < max
    ensures var whole := CleanText(s, |s|);
            && SingleSpaced(whole) && |whole| <= |s|
            && CleanText(s, max) == if |whole| <= max then whole else whole[..max - 1] + ['\U{2026}']
  {
    JoinedIsNoLonger(s);
    JoinedIsSingleSpaced(Words(s));
  }

  // ------------------------------------------------------------------ fences

  /** The first triple backquote goes, and removal goes on behind it. */
  lemma {:induction false} RemovingReads(a: string, b: string)
    requires forall i: nat | i < |a| :: !FenceAt(a + "```", i)
    ensures RemoveFences(a + "```" + b) == a + RemoveFences(b)
  {
    var s := a + "```" + b;
    if a == "" {
      assert s[3..] == b && FenceAt(s, 0);
    } else {
      assert FenceAt(s, 0) == FenceAt(a + "```", 0);
      assert s[1..] == a[1..] + "```" + b;
      forall i: nat | i < |a[1..]| ensures !FenceAt(a[1..] + "```", i) {
        assert FenceAt(a[1..] + "```", i) == FenceAt(a + "```", i + 1);
      }
      RemovingReads(a[1..], b);
      assert [a[0]] + (a[1..] + RemoveFences(b)) == a + RemoveFences(b);
    }
  }

  // ------------------------------------------------------------------ escaping

  predicate Special(c: char) {
    c in "\\`*_~[]()<>|!"
  }

  lemma SpecialIsMarkdown(c: char)
    ensures Special(c) <==> IsMarkdown(c)
  {
    assert "\\`*_~[]()<>|!" == ['\\', '`', '*', '_', '~', '[', ']', '(', ')', '<', '>', '|', '!'];
  }

  lemma {:induction false} EscapeGrows(s: string, first: bool, c: char)
    requires s != "" || !first
    ensures EscapeFrom(s + [c], first) == EscapeFrom(s, first) + (if Special(c) then ['\\', c] else [c])
  {
    SpecialIsMarkdown(c);
    if s == "" {
      assert s + [c] == [c] && [c][1..] == "";
    } else {
      assert (s + [c])[1..] == s[1..] + [c];
      EscapeGrows(s[1..], false, c);
    }
  }

  /** A special character gets a backslash in front, and so does a list mark at the very start. */
  lemma EscapingReads(s: string, c: char)
    ensures EscapeInline("") == ""
    ensures EscapeInline([c]) == if Special(c) || c == '-' || c == '+' then ['\\', c] else [c]
    ensures s != "" ==> EscapeInline(s + [c]) == EscapeInline(s) + (if Special(c) then ['\\', c] else [c])
  {
    SpecialIsMarkdown(c);
    assert [c][1..] == "" && EscapeFrom("", false) == "";
    assert EscapeFrom([c], true)
        == (if IsMarkdown(c) || c in {'-', '+', '>'} then ['\\', c] else [c]) + EscapeFrom("", false);
    if s != "" {
      EscapeGrows(s, true, c);
    }
  }

  // ------------------------------------------------------------------ references and links

  lemma {:induction false} MarkReferencesJoin(a: string, b: string)
    ensures MarkReferences(a + b) == MarkReferences(a) + MarkReferences(b)
  {
    if a == "" {
      assert a + b == b;
    } else {
      assert (a + b)[1..] == a[1..] + b;
      MarkReferencesJoin(a[1..], b);
    }
  }

  lemma {:induction false} MarkReferencesKeeps(a: string)
    requires '@' !in a && '#' !in a
    ensures MarkReferences(a) == a
  {
    if a != "" {
      assert a[0] in a && a == [a[0]] + a[1..];
      MarkReferencesKeeps(a[1..]);
    }
  }

  lemma MarkReferencesCopies(a: string, b: string)
    requires '@' !in a && '#' !in a
    ensures MarkReferences(a + b) == a + MarkReferences(b)
  {
    MarkReferencesJoin(a, b);
    MarkReferencesKeeps(a);
  }

  /** A prefix in which no scheme starts is copied. */
  lemma {:induction false} BreakSchemesCopies(a: string, b: string)
    requires forall i: nat | i < |a| :: !SchemeAt(a + b, i)
    ensures BreakSchemes(a + b) == a + BreakSchemes(b)
  {
    if a == "" {
      assert a + b == b;
    } else {
      assert (a + b)[1..] == a[1..] + b;
      forall i: nat | i < |a[1..]| ensures !SchemeAt(a[1..] + b, i) {
        assert SchemeAt(a[1..] + b, i) == SchemeAt(a + b, i + 1);
      }
      BreakSchemesCopies(a[1..], b);
      assert [a[0]] + (a[1..] + BreakSchemes(b)) == a + BreakSchemes(b);
    }
  }

  lemma BreakWwwCopies(a: string, b: string)
    requires forall i: nat | i < |a| :: !WwwAt(a + b, i)
    ensures BreakWww(a + b) == a + BreakWww(b)
  {
    CopiedUpTo(a + b, 0, |a|);
    assert (a + b)[0..] == a + b && (a + b)[..|a|] == a && (a + b)[|a|..] == b;
  }

  /** Before `opener` nothing is to be broken. */
  predicate Quiet(a: string, opener: string) {
    && '@' !in a && '#' !in a
    && forall i: nat | i < |a| :: !SchemeAt(a + opener, i) && !WwwAt(a + opener, i)
  }

  /** The rest of the work once references are marked. */
  function Broken(s: string): string {
    BreakWww(BreakSchemes(s))
  }

  /** Text that ends in `last`, which is in no opener, is copied when nothing before it is to be broken. */
  lemma BrokenCopies(a: string, tail: string, rest: string)
    requires forall i: nat | i < |a + tail| :: !SchemeAt(a + tail + rest, i)
    requires forall i: nat | i < |a + tail| :: !WwwAt(a + tail + BreakSchemes(rest), i)
    ensures Broken(a + tail + rest) == a + tail + Broken(rest)
  {
    BreakSchemesCopies(a + tail, rest);
    BreakWwwCopies(a + tail, BreakSchemes(rest));
  }

  /** Nothing is changed in a text that mentions nobody, refers to nothing and links nowhere. */
  lemma NeutralizingKeeps(s: string)
    requires Quiet(s, "")
    ensures Neutralize(s) == s
  {
    assert s + "" == s;
    MarkReferencesKeeps(s);
    BreakSchemesCopies(s, "");
    BreakWwwCopies(s, "");
  }

  lemma ReferenceIsQuiet(a: string, c: char, rest: string)
    requires (c == '@' || c == '#') && Quiet(a, [c])
    ensures forall i: nat | i < |a| + 2 :: !SchemeAt(a + [c, ZWSP] + rest, i) && !WwwAt(a + [c, ZWSP] + rest, i)
  {
    var s, t := a + [c, ZWSP] + rest, a + [c];
    forall i: nat | i < |a| + 2 ensures !SchemeAt(s, i) && !WwwAt(s, i) {
      if i < |a| {
        assert s[i] == t[i] && s[i + 1] == t[i + 1];
        assert i + 2 < |t| ==> s[i + 2] == t[i + 2];
        assert i + 3 < |t| ==> s[i + 3] == t[i + 3];
        assert SchemeAt(s, i) ==> SchemeAt(t, i);
        assert WwwAt(s, i) ==> WwwAt(t, i);
      }
    }
  }

  /** A mention or a reference gets a zero-width space behind its mark. */
  lemma ReferencesAreMarked(a: string, c: char, b: string)
    requires (c == '@' || c == '#') && Quiet(a, [c])
    ensures Neutralize(a + [c] + b) == a + [c, '\U{200B}'] + Neutralize(b)
  {
    MarkReferencesCopies(a, [c] + b);
    MarkReferencesJoin([c], b);
    assert a + [c] + b == a + ([c] + b) && [c][1..] == "";
    var rest := MarkReferences(b);
    assert a + ([c, ZWSP] + rest) == a + [c, ZWSP] + rest;
    ReferenceIsQuiet(a, c, rest);
    ReferenceIsQuiet(a, c, BreakSchemes(rest));
    BrokenCopies(a, [c, ZWSP], rest);
  }

  lemma QuietBeforeScheme(a: string, rest: string)
    requires Quiet(a, "://")
    ensures forall i: nat | i < |a| :: !SchemeAt(a + "://" + rest, i)
    ensures forall i: nat | i < |a| + 4 :: !WwwAt(a + [':', ZWSP, '/', '/'] + rest, i)
  {
    var s, t, u := a + "://" + rest, a + [':', ZWSP, '/', '/'] + rest, a + "://";
    forall i: nat | i < |a| ensures !SchemeAt(s, i) {
      assert SchemeAt(s, i) ==> SchemeAt(u, i);
    }
    forall i: nat | i < |a| + 4 ensures !WwwAt(t, i) {
      if i < |a| {
        assert i + 3 < |a| ==> (WwwAt(t, i) ==> WwwAt(u, i));
      }
    }
  }

  /** A scheme is broken behind its colon. */
  lemma SchemesAreBroken(a: string, b: string)
    requires Quiet(a, "://")
    ensures Neutralize(a + "://" + b) == a + [':', '\U{200B}', '/', '/'] + Neutralize(b)
  {
    MarkReferencesCopies(a + "://", b);
    var rest := MarkReferences(b);
    assert a + "://" + rest == a + ("://" + rest);
    QuietBeforeScheme(a, rest);
    BreakSchemesCopies(a, "://" + rest);
    assert SchemeAt("://" + rest, 0) && ("://" + rest)[3..] == rest;
    var broken := BreakSchemes(rest);
    assert a + ([':', ZWSP, '/', '/'] + broken) == a + [':', ZWSP, '/', '/'] + broken;
    QuietBeforeScheme(a, broken);
    BreakWwwCopies(a + [':', ZWSP, '/', '/'], broken);
  }

  lemma QuietBeforeWww(a: string, www: string, rest: string)
    requires |www| == 3 && IsW(www[0]) && IsW(www[1]) && IsW(www[2]) && Quiet(a, www + ".")
    ensures forall i: nat | i < |a| + 4 :: !SchemeAt(a + (www + ".") + rest, i)
    ensures forall i: nat | i < |a| :: !WwwAt(a + (www + ".") + rest, i)
  {
    var s, u := a + (www + ".") + rest, a + (www + ".");
    forall i: nat | i < |a| + 4 ensures !SchemeAt(s, i) {
      if i < |a| {
        assert SchemeAt(s, i) ==> SchemeAt(u, i);
      }
    }
    forall i: nat | i < |a| ensures !WwwAt(s, i) {
      assert WwwAt(s, i) ==> WwwAt(u, i);
    }
  }

  lemma SchemesPassWww(a: string, www: string, rest: string)
    requires |www| == 3 && IsW(www[0]) && IsW(www[1]) && IsW(www[2]) && Quiet(a, www + ".")
    ensures BreakSchemes(a + (www + ".") + rest) == a + (www + ".") + BreakSchemes(rest)
  {
    QuietBeforeWww(a, www, rest);
    BreakSchemesCopies(a + (www + "."), rest);
  }

  lemma OneWww(www: string, rest: string)
    requires |www| == 3 && IsW(www[0]) && IsW(www[1]) && IsW(www[2])
    ensures BreakWww(www + "." + rest) == www + ['\U{200B}', '.'] + BreakWww(rest)
  {
    var s := www + "." + rest;
    assert WwwAt(s, 0) && s[4..] == rest;
  }

  lemma FirstWww(a: string, www: string, rest: string)
    requires |www| == 3 && IsW(www[0]) && IsW(www[1]) && IsW(www[2]) && Quiet(a, www + ".")
    ensures BreakWww(a + (www + ".") + rest) == a + (www + ['\U{200B}', '.']) + BreakWww(rest)
  {
    QuietBeforeWww(a, www, rest);
    assert a + (www + ".") + rest == a + (www + "." + rest);
    BreakWwwCopies(a, www + "." + rest);
    OneWww(www, rest);
  }

  /** And `www.`, in any case, before its dot. */
  lemma WwwIsBroken(a: string, www: string, b: string)
    requires |www| == 3 && IsW(www[0]) && IsW(www[1]) && IsW(www[2]) && Quiet(a, www + ".")
    ensures Neutralize(a + (www + ".") + b) == a + (www + ['\U{200B}', '.']) + Neutralize(b)
  {
    MarkReferencesCopies(a + (www + "."), b);
    SchemesPassWww(a, www, MarkReferences(b));
    FirstWww(a, www, BreakSchemes(MarkReferences(b)));
  }

  // ------------------------------------------------------------------ links

  predicate LinkMark(c: char) {
    c == '(' || c == ')' || c == ' '
  }

  lemma {:induction false} WithoutMarksJoin(a: string, b: string)
    ensures WithoutLinkMarks(a + b) == WithoutLinkMarks(a) + WithoutLinkMarks(b)
  {
    if a == "" {
      assert a + b == b;
    } else {
      assert (a + b)[1..] == a[1..] + b;
      WithoutMarksJoin(a[1..], b);
    }
  }

  lemma {:induction false} WithoutMarksKeeps(s: string)
    requires forall c | c in s :: !LinkMark(c)
    ensures WithoutLinkMarks(s) == s
  {
    if s != "" {
      assert s[0] in s && s == [s[0]] + s[1..];
      WithoutMarksKeeps(s[1..]);
    }
  }

  /** A link loses its parentheses and spaces; without any, it is cut behind 2,048 characters. */
  lemma LinksRead(a: string, c: char, b: string)
    ensures LinkMark(c) ==> CleanLink(a + [c] + b) == CleanLink(a + b)
    ensures (forall x | x in a :: !LinkMark(x)) ==>
              CleanLink(a) == if |a| <= 2048 then a else a[..2047] + ['\U{2026}']
  {
    if LinkMark(c) {
      MarkIsDropped(a, c, b);
    }
    if forall x | x in a :: !LinkMark(x) {
      WithoutMarksKeeps(a);
    }
  }

  lemma MarkIsDropped(a: string, c: char, b: string)
    requires LinkMark(c)
    ensures WithoutLinkMarks(a + [c] + b) == WithoutLinkMarks(a + b)
  {
    WithoutMarksJoin(a + [c], b);
    WithoutMarksJoin(a, [c]);
    WithoutMarksJoin(a, b);
    assert [c][1..] == "" && WithoutLinkMarks([c]) == "";
  }
}
