/** The byte limit of a published body: fences stay balanced and the footer always survives. */
module IssueCap {
  import opened Basics
  import opened Numerals
  import opened Codecs
  import opened Utf8
  import opened IssueText
  import opened IssueRedaction
  import opened IssueBody

  const GITHUB_BODY_LIMIT: nat := 65_536

  // ------------------------------------------------------------------ fences of the pieces

  predicate Plain(s: string) {
    '`' !in s
  }

  lemma PlainHasNoFence(s: string)
    requires Plain(s)
    ensures Fences(s) == 0
  {
    NoFencesIffFenceFree(s);
  }

  lemma {:induction false} DigitsArePlain(n: nat)
    ensures Plain(Digits(n))
  {
    if 10 <= n {
      DigitsArePlain(n / 10);
    }
  }

  lemma DecimalIsPlain(n: int)
    ensures Plain(Decimal(n))
  {
    DigitsArePlain(if n < 0 then -n else n);
  }

  lemma {:induction false} StatusListIsPlain(codes: seq<int>)
    ensures Plain(StatusList(codes))
  {
    if codes != [] {
      DecimalIsPlain(codes[0]);
      StatusListIsPlain(codes[1..]);
    }
  }

  lemma MomentIsPlain(m: Moment)
    ensures Plain(FormatMoment(m))
  {
    DigitsArePlain(m.year);
    DigitsArePlain(m.month);
    DigitsArePlain(m.day);
    DigitsArePlain(m.hour);
    DigitsArePlain(m.minute);
    DigitsArePlain(m.second);
  }

  lemma HeaderIsPlain(section: Section)
    ensures Plain(HeaderText(section))
  {}

  lemma NoneIsPlain(section: Section)
    ensures Plain(NoneText(section))
  {}

  lemma NounIsPlain(section: Section)
    ensures Plain(Noun(section))
  {}

  lemma PeriodIsPlain(earliest: Option<Moment>, latest: Option<Moment>)
    ensures Plain(PeriodText(earliest, latest))
  {
    if earliest.Some? && latest.Some? {
      MomentIsPlain(earliest.value);
      MomentIsPlain(latest.value);
    }
  }

  lemma CountIsPlain(before: string, n: int, after: string)
    requires Plain(before) && Plain(after)
    ensures Plain(before + Decimal(n) + after)
  {
    DecimalIsPlain(n);
  }

  lemma DetailOmittedIsPlain(used: bool)
    ensures Plain(NoteText(DetailOmitted(used)))
  {}

  lemma NoDetailIsPlain(used: bool)
    ensures Plain(NoteText(NoDetail(used)))
  {
    assert Plain("- A workaround was used; ") && Plain("no detail was provided.\n")
      && Plain("- No workaround was used.\n");
  }

  lemma ShortNoteIsPlain(note: Note)
    requires note.LineEnd? || note.Bullet? || note.Comma? || note.Operations? || note.Surfaces? || note.Unknown?
    ensures Plain(NoteText(note))
  {}

  lemma MoreIsPlain(note: Note)
    requires note.More?
    ensures Plain(NoteText(note))
  {
    DecimalIsPlain(note.count);
    NounIsPlain(note.section);
  }

  lemma ManyIsPlain(note: Note)
    requires note.MoreValues? || note.MoreDetails?
    ensures Plain(NoteText(note))
  {
    DecimalIsPlain(note.count);
  }

  lemma OmittedIsPlain(note: Note)
    requires note.DetailsOmitted?
    ensures Plain(NoteText(note))
  {
    CountIsPlain("  - ", note.count, " sensitive detail(s) omitted.\n");
  }

  lemma FigureIsPlain(note: Note)
    requires note.Count? || note.StatusCodes? || note.Reports?
    ensures Plain(NoteText(note))
  {
    match note
    case Count(n) => DecimalIsPlain(n);
    case StatusCodes(codes) => StatusListIsPlain(codes);
    case Reports(n) => DecimalIsPlain(n);
  }

  lemma NoteIsPlain(note: Note)
    ensures Plain(NoteText(note))
  {
    if note.Header? {
      HeaderIsPlain(note.section);
    } else if note.None? {
      NoneIsPlain(note.section);
    } else if note.Between? {
      PeriodIsPlain(note.earliest, note.latest);
    } else if note.DetailOmitted? {
      DetailOmittedIsPlain(note.used);
    } else if note.NoDetail? {
      NoDetailIsPlain(note.used);
    } else if note.More? {
      MoreIsPlain(note);
    } else if note.MoreValues? || note.MoreDetails? {
      ManyIsPlain(note);
    } else if note.DetailsOmitted? {
      OmittedIsPlain(note);
    } else if note.Count? || note.StatusCodes? || note.Reports? {
      FigureIsPlain(note);
    } else {
      ShortNoteIsPlain(note);
    }
  }

  lemma CodeIsPlain(shown: Shown)
    ensures Plain(CodeText(shown))
  {}

  lemma TwoBackquotesApart(before: string, inside: string, tail: string)
    requires Plain(before) && Plain(inside) && Plain(tail) && inside != "" && before != ""
    ensures Fences(before + "`" + inside + "`" + tail) == 0
    ensures !StartsWith(before + "`" + inside + "`" + tail, '`')
  {
    var text := before + "`" + inside + "`" + tail;
    assert forall i | 0 <= i < |text| && text[i] == '`' :: i == |before| || i == |before| + 1 + |inside|;
    assert text[0] == before[0] && before[0] in before;
    NoFencesIffFenceFree(text);
  }

  /** A heading has single backquotes only, even around empty values. */
  lemma HeadingHasNoFence(kind: Shown, topic: Shown, count: int)
    ensures Fences(HeadingText(kind, topic, count)) == 0
    ensures !StartsWith(HeadingText(kind, topic, count), '`')
  {
    CodeIsPlain(kind);
    CodeIsPlain(topic);
    CountIsPlain(": ", count, " report(s)\n");
    var inside := CodeText(kind) + "/" + CodeText(topic);
    assert |inside| > 0;
    TwoBackquotesApart("- ", inside, ": " + Decimal(count) + " report(s)\n");
  }

  lemma FenceLine(indent: string, tail: string)
    requires Plain(indent) && Plain(tail) && tail != ""
    ensures Fences(indent + "```" + tail) == 1
  {
    PlainHasNoFence(indent);
    PlainHasNoFence(tail);
    FencesAddUp("```", tail);
    FencesAddUp(indent, "```" + tail);
    assert indent + "```" + tail == indent + ("```" + tail);
    assert Fences("```") == 1;
  }

  lemma DetailLine(indent: string, detail: string)
    requires Plain(indent) && FenceFree(detail)
    ensures Fences(indent + detail + "\n") == 0
  {
    PlainHasNoFence(indent);
    PlainHasNoFence("\n");
    NoFencesIffFenceFree(detail);
    FencesAddUp(indent, detail);
    FencesAddUp(indent + detail, "\n");
  }

  lemma FourLines(a: string, b: string, c: string, e: string)
    requires StartsPlain(b) && StartsPlain(c) && StartsPlain(e)
    ensures Fences(a + b + c + e) == Fences(a) + Fences(b) + Fences(c) + Fences(e)
  {
    FencesAddUp(a, b);
    FencesAddUp(a + b, c);
    FencesAddUp(a + b + c, e);
  }

  predicate StartsPlain(s: string) {
    !StartsWith(s, '`')
  }

  /** A fenced customer text brings its own two fences and no other, whatever the text. */
  lemma FencedHasTwoFences(name: Name, value: string, max: nat)
    ensures Fences(FencedText(name, value, max)) == 2
    ensures StartsPlain(FencedText(name, value, max))
  {
    var indent, detail := Indent(name) + "  ", CleanText(RemoveFences(value), max);
    assert Plain(indent) && indent != "" && indent[0] == ' ';
    RemovingLeavesNoFence(value);
    CleanTextIsFenceFree(RemoveFences(value), max);
    var first := Indent(name) + "- " + NameText(name) + ":\n";
    assert Plain(first) && StartsPlain(first) && first != "";
    PlainHasNoFence(first);
    FenceLine(indent, "text\n");
    DetailLine(indent, detail);
    FenceLine(indent, "\n");
    FourLines(first, indent + "```" + "text\n", indent + detail + "\n", indent + "```" + "\n");
  }

  lemma InlineHasNoFence(shown: Shown, max: nat)
    ensures Fences(InlineText(shown, max)) == 0
    ensures StartsPlain(InlineText(shown, max))
  {
    match shown
    case Redacted => PlainHasNoFence("[redacted]");
    case Clear(value) =>
      EscapingRoundTrip(Neutralize(CleanText(value, max)), true);
      SparseIsFenceFree(InlineText(shown, max));
  }

  lemma PieceFences(piece: Piece)
    ensures Fences(PieceText(piece)) == (if piece.Fenced? then 2 else 0)
    ensures StartsPlain(PieceText(piece))
  {
    match piece
    case Fixed(note) =>
      NoteIsPlain(note);
      PlainHasNoFence(NoteText(note));
    case Inline(shown, max) => InlineHasNoFence(shown, max);
    case Heading(kind, topic, count) => HeadingHasNoFence(kind, topic, count);
    case Fenced(name, value, max) => FencedHasTwoFences(name, value, max);
  }

  function FencedPieces(pieces: seq<Piece>): nat {
    if pieces == [] then 0 else (if pieces[0].Fenced? then 1 else 0) + FencedPieces(pieces[1..])
  }

  /** Before the footer a body has two fences for each fenced text, and no other. */
  lemma {:induction false} RenderedFences(pieces: seq<Piece>)
    ensures Fences(Rendered(pieces)) == 2 * FencedPieces(pieces)
    ensures StartsPlain(Rendered(pieces))
  {
    if pieces != [] {
      PieceFences(pieces[0]);
      RenderedFences(pieces[1..]);
      FencesAddUp(PieceText(pieces[0]), Rendered(pieces[1..]));
    }
  }

  // ------------------------------------------------------------------ the footer and the cap

  function AsString(text: Text): string {
    seq(|text|, i requires 0 <= i < |text| => text[i] as char)
  }

  function WithoutLinkMarks(s: string): string {
    if s == "" then ""
    else (if s[0] in {'(', ')', ' '} then "" else [s[0]]) + WithoutLinkMarks(s[1..])
  }

  function CleanLink(s: string): string {
    Truncate(WithoutLinkMarks(s), 2048)
  }

  function Footer(groupKey: Text, link: string): string {
    "\n\n" + ("<!-- epode-group: " + AsString(GroupMarker(groupKey)) + " -->")
    + "\n\n" + "[View this feedback group in Epode](" + link + ")"
  }

  function Omission(): string {
    "\n\n\U{2026} and additional content was omitted."
  }

  function Suffix(footer: string): string {
    Omission() + footer
  }

  const FENCE_CLOSE := "\n" + "```"

  /** The bytes left for the body once the suffix and a closing fence have their room. */
  function Room(footer: string): nat {
    var reserved := ByteLen(Suffix(footer)) + 4;
    if reserved <= GITHUB_BODY_LIMIT then GITHUB_BODY_LIMIT - reserved else 0
  }

  function Kept(body: string, footer: string): string {
    body[..CharsWithin(body, Room(footer))]
  }

  function Closing(kept: string): string {
    if Fences(kept) % 2 == 1 then FENCE_CLOSE else ""
  }

  function Capped(body: string, footer: string): string {
    if ByteLen(body) <= GITHUB_BODY_LIMIT then body
    else Kept(body, footer) + Closing(Kept(body, footer)) + Suffix(footer)
  }

  method CloseFence(kept: string) returns (closed: string)
    ensures closed == kept + Closing(kept)
  {
    closed := kept;
    if Fences(kept) % 2 == 1 {
      closed := closed + FENCE_CLOSE;
    }
  }

  method CutBody(body: string, footer: string) returns (kept: string)
    requires Room(footer) < ByteLen(body)
    ensures kept == Kept(body, footer)
  {
    var boundary := FloorBoundary(body, Room(footer));
    kept := body[..boundary];
  }

  method CapBody(body: string, footer: string) returns (capped: string)
    ensures capped == Capped(body, footer)
  {
    if ByteLen(body) <= GITHUB_BODY_LIMIT {
      return body;
    }
    var kept := CutBody(body, footer);
    capped := CloseFence(kept);
    capped := capped + Suffix(footer);
  }

  lemma FenceCloseFacts()
    ensures ByteLen(FENCE_CLOSE) == 4 && Fences(FENCE_CLOSE) == 1
  {
    FencesAddUp("\n", "```");
    assert Fences("```") == 1 && Fences("\n") == 0;
    ByteLenAddsUp("\n", "```");
    ByteLenAddsUp("`", "``");
    ByteLenAddsUp("`", "`");
    assert "```" == "`" + "``" && "``" == "`" + "`";
  }

  lemma ClosingFacts(kept: string)
    ensures ByteLen(Closing(kept)) <= 4
    ensures kept == "" ==> Closing(kept) == ""
    ensures StartsPlain(Closing(kept))
    ensures Fences(Closing(kept)) == Fences(kept) % 2
  {
    FenceCloseFacts();
  }

  lemma CappedLength(body: string, footer: string)
    requires GITHUB_BODY_LIMIT < ByteLen(body)
    ensures ByteLen(Capped(body, footer))
            == ByteLen(Kept(body, footer)) + ByteLen(Closing(Kept(body, footer))) + ByteLen(Suffix(footer))
    ensures ByteLen(Kept(body, footer)) <= Room(footer)
  {
    var kept := Kept(body, footer);
    CharsWithinIsLongest(body, Room(footer));
    ByteLenAddsUp(kept, Closing(kept));
    ByteLenAddsUp(kept + Closing(kept), Suffix(footer));
  }

  lemma NoBytesNoText(s: string)
    requires ByteLen(s) == 0
    ensures s == ""
  {}

  /** The published body keeps the limit exactly when it fits as it is or its suffix does. */
  lemma CappedFitsIff(body: string, footer: string)
    ensures ByteLen(Capped(body, footer)) <= GITHUB_BODY_LIMIT
            <==> ByteLen(body) <= GITHUB_BODY_LIMIT || ByteLen(Suffix(footer)) <= GITHUB_BODY_LIMIT
  {
    if GITHUB_BODY_LIMIT < ByteLen(body) {
      CappedLength(body, footer);
      ClosingFacts(Kept(body, footer));
      if Room(footer) == 0 {
        NoBytesNoText(Kept(body, footer));
        assert ByteLen("") == 0;
      }
    }
  }

  /** What is cut is the longest run of whole characters that leaves room for suffix and fence. */
  lemma CutIsLongest(body: string, footer: string)
    requires GITHUB_BODY_LIMIT < ByteLen(body)
    ensures Kept(body, footer) < body
    ensures ByteLen(Kept(body, footer)) <= Room(footer) < ByteLen(body[..|Kept(body, footer)| + 1])
  {
    CharsWithinIsLongest(body, Room(footer));
    assert body[..|body|] == body;
  }

  predicate EndsWith(s: string, tail: string) {
    |tail| <= |s| && s[|s| - |tail|..] == tail
  }

  /** A body that ends with the footer still does when it is cut. */
  lemma FooterSurvives(body: string, footer: string)
    requires EndsWith(body, footer)
    ensures EndsWith(Capped(body, footer), footer)
  {
    if GITHUB_BODY_LIMIT < ByteLen(body) {
      var front := Kept(body, footer) + Closing(Kept(body, footer)) + Omission();
      assert Capped(body, footer) == front + footer;
    }
  }

  lemma OmissionIsPlain()
    ensures Plain(Omission()) && StartsPlain(Omission()) && Omission() != ""
  {}

  lemma FencesOfParts(kept: string, closing: string, omission: string, footer: string)
    requires StartsPlain(closing) && StartsPlain(omission + footer) && Plain(omission) && omission != ""
    ensures Fences(kept + closing + (omission + footer)) == Fences(kept) + Fences(closing) + Fences(footer)
  {
    PlainHasNoFence(omission);
    assert omission[|omission| - 1] in omission;
    FencesAddUp(omission, footer);
    FencesAddUp(kept, closing);
    FencesAddUp(kept + closing, omission + footer);
  }

  /** A body cut inside a fenced block is closed: only the footer's fences can leave it unbalanced. */
  lemma CappedFencesFollowFooter(body: string, footer: string)
    requires Fences(body) % 2 == Fences(footer) % 2
    ensures Fences(Capped(body, footer)) % 2 == Fences(footer) % 2
  {
    if GITHUB_BODY_LIMIT < ByteLen(body) {
      ClosingFacts(Kept(body, footer));
      OmissionIsPlain();
      FencesOfParts(Kept(body, footer), Closing(Kept(body, footer)), Omission(), footer);
    }
  }

  /** The whole body before the cap, footer included. */
  function FullBody(d: Issue, redact: string -> bool): string {
    Rendered(BodyPieces(d, redact)) + IssueFooter(d)
  }

  function IssueFooter(d: Issue): string {
    Footer(d.groupKey, CleanLink(d.backlink))
  }

  lemma MarkerIsPlain(key: Text)
    ensures Plain(AsString(GroupMarker(key)))
  {
    MarkerRoundTrip(key);
    var marker := GroupMarker(key);
    forall c | c in AsString(marker) ensures c != '`' {
      var i :| 0 <= i < |marker| && marker[i] as char == c;
      assert marker[i] in marker && IsAlphanumeric(marker[i]);
    }
  }

  /** The footer has no fences but the link's. */
  lemma FooterFences(key: Text, link: string)
    ensures Fences(Footer(key, link)) == Fences(link)
    ensures StartsPlain(Footer(key, link))
  {
    MarkerIsPlain(key);
    var front := "\n\n" + ("<!-- epode-group: " + AsString(GroupMarker(key)) + " -->")
                 + "\n\n" + "[View this feedback group in Epode](";
    assert Plain(front);
    PlainHasNoFence(front);
    PlainHasNoFence(")");
    FencesAddUp(front, link);
    FencesAddUp(front + link, ")");
    assert Footer(key, link) == front + link + ")";
  }

  function PublishedBody(d: Issue, redact: string -> bool): string {
    Capped(FullBody(d, redact), IssueFooter(d))
  }

  lemma FullBodyFences(d: Issue, redact: string -> bool)
    ensures Fences(FullBody(d, redact)) == 2 * FencedPieces(BodyPieces(d, redact)) + Fences(CleanLink(d.backlink))
    ensures Fences(IssueFooter(d)) == Fences(CleanLink(d.backlink))
  {
    var pieces := BodyPieces(d, redact);
    RenderedFences(pieces);
    FooterFences(d.groupKey, CleanLink(d.backlink));
    FencesAddUp(Rendered(pieces), IssueFooter(d));
  }

  /** A link's fences are the only ones that can leave a published body unbalanced. */
  lemma PublishedFencesFollowLink(d: Issue, redact: string -> bool)
    ensures Fences(PublishedBody(d, redact)) % 2 == Fences(CleanLink(d.backlink)) % 2
  {
    FullBodyFences(d, redact);
    CappedFencesFollowFooter(FullBody(d, redact), IssueFooter(d));
  }

  // ------------------------------------------------------------------ how long a footer can be

  const LONGEST_KEY := 28_000

  lemma {:induction false} ByteLenAtMost(s: string)
    ensures ByteLen(s) <= 4 * |s|
  {
    if s != "" {
      ByteLenAtMost(s[1..]);
    }
  }

  lemma {:induction false} AsciiByteLen(s: string)
    requires forall c | c in s :: c < '\U{80}'
    ensures ByteLen(s) == |s|
  {
    if s != "" {
      assert s[0] in s && forall c | c in s[1..] :: c in s;
      AsciiByteLen(s[1..]);
    }
  }

  lemma MarkerLength(key: Text)
    ensures ByteLen(AsString(GroupMarker(key))) == 1 + 2 * |key|
  {
    MarkerRoundTrip(key);
    HexRoundTrip(key);
    var marker := GroupMarker(key);
    forall c | c in AsString(marker) ensures c < '\U{80}' {
      var i :| 0 <= i < |marker| && marker[i] as char == c;
      assert marker[i] in marker && IsAlphanumeric(marker[i]);
    }
    AsciiByteLen(AsString(marker));
  }

  const MARKER_OPENS := "<!-- epode-group: "
  const LINK_OPENS := "[View this feedback group in Epode]("

  lemma FramesAreShort()
    ensures ByteLen("\n\n" + MARKER_OPENS) <= 80
    ensures ByteLen(" -->" + "\n\n" + LINK_OPENS) <= 168
    ensures ByteLen(")") <= 4
  {
    ByteLenAtMost("\n\n" + MARKER_OPENS);
    ByteLenAtMost(" -->" + "\n\n" + LINK_OPENS);
    ByteLenAtMost(")");
  }

  lemma FiveParts(a: string, b: string, c: string, e: string, f: string)
    ensures ByteLen(a + b + c + e + f) == ByteLen(a) + ByteLen(b) + ByteLen(c) + ByteLen(e) + ByteLen(f)
  {
    ByteLenAddsUp(a, b);
    ByteLenAddsUp(a + b, c);
    ByteLenAddsUp(a + b + c, e);
    ByteLenAddsUp(a + b + c + e, f);
  }

  lemma FooterParts(key: Text, link: string)
    ensures Footer(key, link)
         == ("\n\n" + MARKER_OPENS) + AsString(GroupMarker(key)) + (" -->" + "\n\n" + LINK_OPENS) + link + ")"
  {
    var marker := AsString(GroupMarker(key));
    assert "\n\n" + (MARKER_OPENS + marker + " -->") == ("\n\n" + MARKER_OPENS) + marker + " -->";
  }

  lemma FooterLength(key: Text, link: string)
    ensures ByteLen(Footer(key, link)) <= 1 + 2 * |key| + 4 * |link| + 252
  {
    FramesAreShort();
    MarkerLength(key);
    ByteLenAtMost(link);
    FooterParts(key, link);
    FiveParts("\n\n" + MARKER_OPENS, AsString(GroupMarker(key)), " -->" + "\n\n" + LINK_OPENS, link, ")");
  }

  /** However long link and customer texts are, the suffix fits for every key of at most 28,000 bytes. */
  lemma SuffixFits(d: Issue)
    requires |d.groupKey| <= LONGEST_KEY
    ensures ByteLen(Suffix(IssueFooter(d))) <= GITHUB_BODY_LIMIT
  {
    var link := CleanLink(d.backlink);
    FooterLength(d.groupKey, link);
    ByteLenAtMost(Omission());
    ByteLenAddsUp(Omission(), IssueFooter(d));
    assert |Omission()| <= 60;
  }

  lemma {:induction false} WithoutMarksIsPlain(s: string)
    requires Plain(s)
    ensures Plain(WithoutLinkMarks(s))
  {
    if s != "" {
      assert s[0] in s && forall c | c in s[1..] :: c in s;
      WithoutMarksIsPlain(s[1..]);
    }
  }

  lemma PlainLinkHasNoFence(link: string)
    requires Plain(link)
    ensures Fences(CleanLink(link)) == 0
  {
    WithoutMarksIsPlain(link);
    var marked := WithoutLinkMarks(link);
    assert forall c | c in CleanLink(link) :: c in marked || c == ELLIPSIS;
    PlainHasNoFence(CleanLink(link));
  }

  /**
   * For every issue and every policy: the published body ends with the footer; it keeps the
   * limit for every group key of at most 28,000 bytes, whatever else the issue holds; its fences
   * are balanced exactly when those of its link are, so always when the link has no backquote.
   */
  lemma PublishedBodyIsSound(d: Issue, redact: string -> bool)
    ensures EndsWith(PublishedBody(d, redact), IssueFooter(d))
    ensures |d.groupKey| <= 28_000 ==> ByteLen(PublishedBody(d, redact)) <= 65_536
    ensures Fences(PublishedBody(d, redact)) % 2 == 0 <==> Fences(CleanLink(d.backlink)) % 2 == 0
    ensures Plain(d.backlink) ==> Fences(PublishedBody(d, redact)) % 2 == 0
  {
    PublishedFencesFollowLink(d, redact);
    if Plain(d.backlink) {
      PlainLinkHasNoFence(d.backlink);
    }
    FooterSurvives(FullBody(d, redact), IssueFooter(d));
    if |d.groupKey| <= LONGEST_KEY {
      SuffixFits(d);
      CappedFitsIff(FullBody(d, redact), IssueFooter(d));
    }
  }
}
