/**
 * The text of an issue's body, said once more without its pieces: each heading, and under it
 * that section's own values, in order, up to its limit, redacted or shown.
 */
module IssueContent {
  import opened Basics
  import opened Numerals
  import opened Codecs
  import O = OpaqueText
  import opened Utf8
  import opened IssueText
  import opened IssueRedaction
  import opened IssueBody
  import opened IssueCap
  import opened IssueWriter

  // ------------------------------------------------------------------ single values

  /** A value in running text. */
  function Value(value: string, max: nat, redact: string -> bool): string {
    if redact(value) then "[redacted]" else EscapeInline(Neutralize(CleanText(value, max)))
  }

  /** A value between backquotes. */
  function Code(value: string, redact: string -> bool): string {
    if redact(value) then "redacted" else ReplaceBackquotes(Neutralize(CleanText(value, 100)))
  }

  /** A detail between fences. */
  function Block(indent: string, name: string, detail: string, max: nat): string {
    (indent + "- " + name + ":\n")
    + (indent + "  ```text\n")
    + (indent + "  " + CleanText(RemoveFences(detail), max) + "\n")
    + (indent + "  ```\n")
  }

  /** One text for each item, one behind the other. */
  function Each<T>(items: seq<T>, text: T -> string): string {
    if items == [] then "" else text(items[0]) + Each(items[1..], text)
  }

  function AtMost<T>(items: seq<T>, limit: nat): seq<T> {
    if |items| <= limit then items else items[..limit]
  }

  function More(actual: nat, shown: nat, noun: string): string {
    if actual <= shown then "" else "- \U{2026} and " + Decimal(actual - shown) + " more " + noun + ".\n"
  }

  // ------------------------------------------------------------------ the sections

  function ImpactText(redact: string -> bool): Impact -> string {
    (i: Impact) => "- " + Value(i.value, 100, redact) + ": " + Decimal(i.count) + "\n"
  }

  function ImpactsText(d: Issue, redact: string -> bool): string {
    if d.impacts == [] then "- No impact reported.\n"
    else Each(AtMost(d.impacts, 20), ImpactText(redact)) + More(|d.impacts|, 20, "impact values")
  }

  /** The first clear details, at most `room` of them. */
  function FirstClear(details: seq<string>, redact: string -> bool, room: nat): seq<string> {
    if details == [] || room == 0 then []
    else if redact(details[0]) then FirstClear(details[1..], redact, room)
    else [details[0]] + FirstClear(details[1..], redact, room - 1)
  }

  /** How many details must not be shown, up to where the last clear one found room. */
  function HeldBack(details: seq<string>, redact: string -> bool, room: nat): nat {
    if details == [] || room == 0 then 0
    else if redact(details[0]) then 1 + HeldBack(details[1..], redact, room)
    else HeldBack(details[1..], redact, room - 1)
  }

  function DetailText(detail: string): string {
    Block("  ", "Detail", detail, 300)
  }

  function OmittedText(hidden: nat): string {
    if hidden > 0 then "  - " + Decimal(hidden) + " sensitive detail(s) omitted.\n" else ""
  }

  function RestText(rest: int): string {
    if rest > 0 then "  - \U{2026} and " + Decimal(rest) + " more detail(s).\n" else ""
  }

  /** Three different details are shown; the redacted ones passed on the way and the rest are counted. */
  function DetailsText(f: Finding, redact: string -> bool): string {
    var different := Distinct(f.details);
    var shown, hidden := FirstClear(different, redact, 3), HeldBack(different, redact, 3);
    var rest := f.detailCount - |shown| - hidden;
    Each(shown, DetailText) + OmittedText(hidden) + RestText(rest)
  }

  function HeadingLine(f: Finding, redact: string -> bool): string {
    "- `" + Code(f.kind, redact) + "/" + Code(f.topic, redact) + "`: " + Decimal(f.count) + " report(s)\n"
  }

  function FindingText(redact: string -> bool): Finding -> string {
    (f: Finding) =>
      HeadingLine(f, redact) + DetailsText(f, redact)
  }

  function FindingsText(d: Issue, redact: string -> bool): string {
    if d.findings == [] then "- No findings reported.\n"
    else Each(AtMost(d.findings, 25), FindingText(redact)) + More(|d.findings|, 25, "finding groups")
  }

  function WorkaroundText(redact: string -> bool): Workaround -> string {
    (w: Workaround) =>
      if w.detail.None? then
        (if w.used then "- A workaround was used; no detail was provided.\n" else "- No workaround was used.\n")
      else if redact(w.detail.value) then
        (if w.used then "- Used." else "- Reported.") + " Sensitive detail omitted.\n"
      else Block("", if w.used then "Used" else "Reported", w.detail.value, 350)
  }

  function WorkaroundsText(d: Issue, redact: string -> bool): string {
    if d.workarounds == [] then "- No workaround reported.\n"
    else Each(AtMost(d.workarounds, 20), WorkaroundText(redact)) + More(|d.workarounds|, 20, "workarounds")
  }

  function Commas(texts: seq<string>): string {
    if texts == [] then "" else if |texts| == 1 then texts[0] else texts[0] + ", " + Commas(texts[1..])
  }

  function Shown(values: seq<string>, redact: string -> bool): seq<string> {
    seq(|values|, i requires 0 <= i < |values| => Value(values[i], 100, redact))
  }

  function Decimals(codes: seq<int>): seq<string> {
    seq(|codes|, i requires 0 <= i < |codes| => Decimal(codes[i]))
  }

  function ValuesText(values: seq<string>, redact: string -> bool): string {
    if values == [] then "unknown"
    else
      Commas(Shown(AtMost(values, 20), redact))
      + (if |values| <= 20 then "" else ", \U{2026} and " + Decimal(|values| - 20) + " more")
  }

  function CodesText(codes: seq<int>): string {
    if codes == [] then "none" else Commas(Decimals(codes))
  }

  function Two(n: nat): string {
    if n < 10 then "0" + Decimal(n) else Decimal(n)
  }

  function MomentText(m: Moment): string {
    Decimal(m.year) + "-" + Two(m.month) + "-" + Two(m.day) + " "
    + Two(m.hour) + ":" + Two(m.minute) + ":" + Two(m.second) + " UTC"
  }

  function WhenText(earliest: Option<Moment>, latest: Option<Moment>): string {
    match (earliest, latest)
    case (Some(from), Some(to)) => MomentText(from) + " \U{2192} " + MomentText(to) + "\n"
    case _ => "No occurrence time available.\n"
  }

  /** The first three sections. */
  function ReportsText(d: Issue, redact: string -> bool): string {
    (Value(d.explanation, 1000, redact) + "\n")
    + ("\n## Impact\n" + ImpactsText(d, redact))
    + ("\n## Findings\n" + FindingsText(d, redact))
  }

  function Line(name: string, text: string): string {
    name + text + "\n"
  }

  function PlacesText(d: Issue, redact: string -> bool): string {
    Line("- Operation: ", ValuesText(d.operations, redact))
    + Line("- Surface: ", ValuesText(d.surfaces, redact))
    + Line("- Status codes: ", CodesText(d.statusCodes))
  }

  /** The other four. */
  function ContextText(d: Issue, redact: string -> bool): string {
    ("\n## Workaround\n" + WorkaroundsText(d, redact))
    + ("\n## Where\n" + PlacesText(d, redact))
    + ("\n## When\n" + WhenText(d.earliest, d.latest))
    + ("\n## Volume\n" + (Decimal(d.reportCount) + " report(s)\n"))
  }

  // ------------------------------------------------------------------ pieces render to that text

  lemma {:induction false} RenderedJoin(a: seq<Piece>, b: seq<Piece>)
    ensures Rendered(a + b) == Rendered(a) + Rendered(b)
  {
    if a == [] {
      assert a + b == b;
    } else {
      assert (a + b)[1..] == a[1..] + b;
      RenderedJoin(a[1..], b);
    }
  }

  lemma RenderedOne(piece: Piece)
    ensures Rendered([piece]) == PieceText(piece)
  {
    assert [piece][1..] == [];
    assert Rendered([]) == "";
  }

  lemma RenderedThree(a: Piece, b: Piece, c: Piece)
    ensures Rendered([a, b, c]) == PieceText(a) + PieceText(b) + PieceText(c)
  {
    assert [a, b, c] == [a] + [b] + [c];
    RenderedOne(a);
    RenderedOne(b);
    RenderedOne(c);
    RenderedJoin([a], [b]);
    RenderedJoin([a] + [b], [c]);
  }

  lemma ValueIs(value: string, max: nat, redact: string -> bool)
    ensures InlineText(Show(value, redact), max) == Value(value, max, redact)
  {}

  lemma CodeIs(value: string, redact: string -> bool)
    ensures CodeText(Show(value, redact)) == Code(value, redact)
  {}

  lemma MoreIs(actual: nat, shown: nat, section: Section, noun: string)
    requires Noun(section) == noun
    ensures Rendered(MoreLine(actual, shown, section)) == More(actual, shown, noun)
  {
    if actual > shown {
      RenderedOne(Fixed(Note.More(section, actual - shown)));
    } else {
      assert MoreLine(actual, shown, section) == [];
    }
  }

  lemma Assoc(a: string, b: string, c: string)
    ensures a + (b + c) == a + b + c
  {}

  lemma OneImpact(i: Impact, redact: string -> bool)
    ensures Rendered([Fixed(Bullet), Inline(Show(i.value, redact), 100), Fixed(Note.Count(i.count))])
            == ImpactText(redact)(i)
  {
    RenderedThree(Fixed(Bullet), Inline(Show(i.value, redact), 100), Fixed(Note.Count(i.count)));
    ValueIs(i.value, 100, redact);
    var front, count := "- " + Value(i.value, 100, redact), Decimal(i.count);
    Assoc(front, ": ", count);
    Assoc(front, ": " + count, "\n");
  }

  lemma {:induction false} ImpactsAre(impacts: seq<Impact>, redact: string -> bool)
    ensures Rendered(ImpactPieces(impacts, redact)) == Each(impacts, ImpactText(redact))
  {
    if impacts != [] {
      var first := [Fixed(Bullet), Inline(Show(impacts[0].value, redact), 100), Fixed(Note.Count(impacts[0].count))];
      OneImpact(impacts[0], redact);
      RenderedJoin(first, ImpactPieces(impacts[1..], redact));
      ImpactsAre(impacts[1..], redact);
    }
  }

  lemma ImpactSectionIs(d: Issue, redact: string -> bool)
    ensures Rendered(ImpactSection(d, redact)) == ImpactsText(d, redact)
  {
    if d.impacts == [] {
      RenderedOne(Fixed(Note.None(Impacts)));
    } else {
      var pieces := ImpactPieces(Take(d.impacts, MAX_IMPACT_VALUES), redact);
      RenderedJoin(pieces, MoreLine(|d.impacts|, MAX_IMPACT_VALUES, Impacts));
      ImpactsAre(AtMost(d.impacts, 20), redact);
      MoreIs(|d.impacts|, 20, Impacts, "impact values");
    }
  }

  // ------------------------------------------------------------------ findings

  lemma {:induction false} FirstClearGrows(details: seq<string>, last: string, redact: string -> bool, room: nat)
    ensures FirstClear(details + [last], redact, room)
            == FirstClear(details, redact, room)
               + (if |FirstClear(details, redact, room)| < room && !redact(last) then [last] else [])
    ensures HeldBack(details + [last], redact, room)
            == HeldBack(details, redact, room)
               + (if |FirstClear(details, redact, room)| < room && redact(last) then 1 else 0)
  {
    var all := details + [last];
    if details == [] {
      assert all[1..] == [];
    } else if room > 0 {
      assert all[1..] == details[1..] + [last];
      FirstClearGrows(details[1..], last, redact, if redact(details[0]) then room else room - 1);
    }
  }

  /** The walk shows and holds back what the list of different details says. */
  lemma {:induction false} WalkIs(details: seq<string>, redact: string -> bool)
    ensures WalkDetails(details, redact)
            == Walk(FirstClear(Distinct(details), redact, 3), HeldBack(Distinct(details), redact, 3))
  {
    if details != [] {
      var before, last := details[..|details| - 1], details[|details| - 1];
      WalkIs(before, redact);
      if last in before {
        assert Distinct(before) + [] == Distinct(before);
      } else {
        FirstClearGrows(Distinct(before), last, redact, 3);
      }
    }
  }

  lemma FenceLines(indent: string)
    ensures indent + "  " + "```" + "text\n" == indent + "  ```text\n"
    ensures indent + "  " + "```" + "\n" == indent + "  ```\n"
  {
    assert "  ```text\n" == "  " + ("```" + "text\n") && "  ```\n" == "  " + ("```" + "\n");
    Assoc(indent + "  ", "```", "text\n");
    Assoc(indent, "  ", "```" + "text\n");
    Assoc(indent + "  ", "```", "\n");
    Assoc(indent, "  ", "```" + "\n");
  }

  lemma BlockIs(name: Name, value: string, max: nat)
    ensures PieceText(Fenced(name, value, max)) == Block(Indent(name), NameText(name), value, max)
  {
    FenceLines(Indent(name));
  }

  lemma {:induction false} DetailsAre(shown: seq<string>)
    ensures Rendered(DetailPieces(shown)) == Each(shown, DetailText)
  {
    if shown != [] {
      assert DetailPieces(shown)[1..] == DetailPieces(shown[1..]);
      BlockIs(Detail, shown[0], 300);
      DetailsAre(shown[1..]);
    } else {
      assert DetailPieces(shown) == [];
    }
  }

  lemma LeftOverIs(hidden: nat, rest: int)
    ensures Rendered(LeftOverPieces(hidden, rest)) == OmittedText(hidden) + RestText(rest)
  {
    var a := if hidden > 0 then [Fixed(DetailsOmitted(hidden))] else [];
    var b := if rest > 0 then [Fixed(MoreDetails(rest))] else [];
    RenderedJoin(a, b);
    RenderedOne(Fixed(DetailsOmitted(hidden)));
    RenderedOne(Fixed(MoreDetails(rest)));
  }

  lemma FindingDetailsAre(f: Finding, redact: string -> bool)
    ensures Rendered(Under(f, redact)) == DetailsText(f, redact)
  {
    var walk := WalkDetails(f.details, redact);
    WalkIs(f.details, redact);
    UnderIs(walk.shown, walk.hidden, f.detailCount - |walk.shown| - walk.hidden);
  }

  lemma UnderIs(shown: seq<string>, hidden: nat, rest: int)
    ensures Rendered(DetailPieces(shown) + LeftOverPieces(hidden, rest))
            == Each(shown, DetailText) + OmittedText(hidden) + RestText(rest)
  {
    RenderedJoin(DetailPieces(shown), LeftOverPieces(hidden, rest));
    DetailsAre(shown);
    LeftOverIs(hidden, rest);
    Assoc(Each(shown, DetailText), OmittedText(hidden), RestText(rest));
  }

  lemma HeadingIs(f: Finding, redact: string -> bool)
    ensures PieceText(Heading(Show(f.kind, redact), Show(f.topic, redact), f.count))
            == HeadingLine(f, redact)
  {
    CodeIs(f.kind, redact);
    CodeIs(f.topic, redact);
    var kind, topic, count := Code(f.kind, redact), Code(f.topic, redact), Decimal(f.count);
    assert "- " + "`" == "- `";
    assert "- `" + (kind + "/" + topic) == "- `" + kind + "/" + topic;
    var front := "- `" + kind + "/" + topic;
    assert front + "`" + (": " + count + " report(s)\n") == front + "`: " + count + " report(s)\n";
  }

  /** What stands under a finding's heading. */
  function Under(f: Finding, redact: string -> bool): seq<Piece> {
    var walk := WalkDetails(f.details, redact);
    DetailPieces(walk.shown) + LeftOverPieces(walk.hidden, f.detailCount - |walk.shown| - walk.hidden)
  }

  lemma FindingHasHeading(f: Finding, redact: string -> bool, heading: Piece)
    requires heading == Heading(Show(f.kind, redact), Show(f.topic, redact), f.count)
    ensures FindingPieces(f, redact) == [heading] + Under(f, redact)
  {}

  /** A heading and what stands under it. */
  lemma HeadedRenders(pieces: seq<Piece>, heading: Piece, under: seq<Piece>, a: string, b: string)
    requires pieces == [heading] + under && PieceText(heading) == a && Rendered(under) == b
    ensures Rendered(pieces) == a + b
  {
    RenderedJoin([heading], under);
    RenderedOne(heading);
  }

  lemma OneFinding(f: Finding, redact: string -> bool)
    ensures Rendered(FindingPieces(f, redact)) == HeadingLine(f, redact) + DetailsText(f, redact)
  {
    var heading := Heading(Show(f.kind, redact), Show(f.topic, redact), f.count);
    FindingHasHeading(f, redact, heading);
    HeadingIs(f, redact);
    FindingDetailsAre(f, redact);
    HeadedRenders(FindingPieces(f, redact), heading, Under(f, redact), HeadingLine(f, redact), DetailsText(f, redact));
  }

  lemma {:induction false} FindingsAre(findings: seq<Finding>, redact: string -> bool)
    ensures Rendered(FindingsPieces(findings, redact)) == Each(findings, FindingText(redact))
  {
    if findings != [] {
      OneFinding(findings[0], redact);
      RenderedJoin(FindingPieces(findings[0], redact), FindingsPieces(findings[1..], redact));
      FindingsAre(findings[1..], redact);
    }
  }

  lemma FindingSectionIs(d: Issue, redact: string -> bool)
    ensures Rendered(FindingSection(d, redact)) == FindingsText(d, redact)
  {
    if d.findings == [] {
      RenderedOne(Fixed(Note.None(Findings)));
    } else {
      var pieces := FindingsPieces(Take(d.findings, MAX_FINDING_GROUPS), redact);
      RenderedJoin(pieces, MoreLine(|d.findings|, MAX_FINDING_GROUPS, Findings));
      FindingsAre(AtMost(d.findings, 25), redact);
      MoreIs(|d.findings|, 25, Findings, "finding groups");
    }
  }

  // ------------------------------------------------------------------ workarounds

  lemma NoDetailIs(used: bool)
    ensures NoteText(NoDetail(used))
            == if used then "- A workaround was used; no detail was provided.\n" else "- No workaround was used.\n"
  {
    assert "- A workaround was used; " + "no detail was provided.\n"
        == "- A workaround was used; no detail was provided.\n";
  }

  lemma OneWorkaround(w: Workaround, redact: string -> bool)
    ensures PieceText(WorkaroundPiece(w, redact)) == WorkaroundText(redact)(w)
  {
    NoDetailIs(w.used);
    if w.detail.Some? {
      BlockIs(if w.used then Used else Reported, w.detail.value, 350);
    }
  }

  lemma {:induction false} WorkaroundsAre(workarounds: seq<Workaround>, redact: string -> bool)
    ensures Rendered(WorkaroundPieces(workarounds, redact)) == Each(workarounds, WorkaroundText(redact))
  {
    if workarounds != [] {
      OneWorkaround(workarounds[0], redact);
      RenderedOne(WorkaroundPiece(workarounds[0], redact));
      RenderedJoin([WorkaroundPiece(workarounds[0], redact)], WorkaroundPieces(workarounds[1..], redact));
      WorkaroundsAre(workarounds[1..], redact);
    }
  }

  lemma WorkaroundSectionIs(d: Issue, redact: string -> bool)
    ensures Rendered(WorkaroundSection(d, redact)) == WorkaroundsText(d, redact)
  {
    if d.workarounds == [] {
      RenderedOne(Fixed(Note.None(Workarounds)));
    } else {
      var pieces := WorkaroundPieces(Take(d.workarounds, MAX_WORKAROUNDS), redact);
      RenderedJoin(pieces, MoreLine(|d.workarounds|, MAX_WORKAROUNDS, Workarounds));
      WorkaroundsAre(AtMost(d.workarounds, 20), redact);
      MoreIs(|d.workarounds|, 20, Workarounds, "workarounds");
    }
  }

  // ------------------------------------------------------------------ places

  lemma {:induction false} CommasAre(values: seq<string>, redact: string -> bool)
    ensures Rendered(CommaSeparated(values, redact)) == Commas(Shown(values, redact))
  {
    if values != [] {
      var first := [Inline(Show(values[0], redact), 100)];
      var comma := if |values| > 1 then [Fixed(Comma)] else [];
      RenderedJoin(first, comma);
      RenderedJoin(first + comma, CommaSeparated(values[1..], redact));
      RenderedOne(first[0]);
      RenderedOne(Fixed(Comma));
      ValueIs(values[0], 100, redact);
      CommasAre(values[1..], redact);
      assert Shown(values, redact)[1..] == Shown(values[1..], redact);
    }
  }

  lemma ValuesAre(values: seq<string>, redact: string -> bool)
    ensures Rendered(ValuesPieces(values, redact)) == ValuesText(values, redact)
  {
    if values == [] {
      RenderedOne(Fixed(Unknown));
    } else {
      var more := if |values| > 20 then [Fixed(MoreValues(|values| - 20))] else [];
      CommasAre(AtMost(values, 20), redact);
      RenderedJoin(CommaSeparated(AtMost(values, 20), redact), more);
      RenderedOne(Fixed(MoreValues(|values| - 20)));
    }
  }

  lemma LabelledIs(tag: Note, inner: seq<Piece>, name: string, text: string)
    requires NoteText(tag) == name && Rendered(inner) == text
    ensures Rendered(Labelled(tag, inner)) == name + text + "\n"
  {
    RenderedJoin([Fixed(tag)], inner);
    RenderedJoin([Fixed(tag)] + inner, [Fixed(LineEnd)]);
    RenderedOne(Fixed(tag));
    RenderedOne(Fixed(LineEnd));
  }

  lemma {:induction false} CodesAre(codes: seq<int>)
    ensures StatusList(codes) == Commas(Decimals(codes))
  {
    if codes != [] {
      CodesAre(codes[1..]);
      assert Decimals(codes)[1..] == Decimals(codes[1..]);
    }
  }

  lemma Joined3(a: seq<Piece>, b: seq<Piece>, c: seq<Piece>, x: string, y: string, z: string)
    requires Rendered(a) == x && Rendered(b) == y && Rendered(c) == z
    ensures Rendered(a + b + c) == x + y + z
  {
    RenderedJoin(a, b);
    RenderedJoin(a + b, c);
  }

  lemma ValueLineIs(tag: Note, values: seq<string>, redact: string -> bool, name: string)
    requires NoteText(tag) == name
    ensures Rendered(Labelled(tag, ValuesPieces(values, redact))) == Line(name, ValuesText(values, redact))
  {
    ValuesAre(values, redact);
    LabelledIs(tag, ValuesPieces(values, redact), name, ValuesText(values, redact));
  }

  lemma CodeLineIs(codes: seq<int>)
    ensures Rendered([Fixed(StatusCodes(codes))]) == Line("- Status codes: ", CodesText(codes))
  {
    CodesAre(codes);
    RenderedOne(Fixed(StatusCodes(codes)));
  }

  lemma PlaceSectionIs(d: Issue, redact: string -> bool)
    ensures Rendered(PlaceSection(d, redact)) == PlacesText(d, redact)
  {
    ValueLineIs(Operations, d.operations, redact, "- Operation: ");
    ValueLineIs(Surfaces, d.surfaces, redact, "- Surface: ");
    CodeLineIs(d.statusCodes);
    Joined3(Labelled(Operations, ValuesPieces(d.operations, redact)),
            Labelled(Surfaces, ValuesPieces(d.surfaces, redact)), [Fixed(StatusCodes(d.statusCodes))],
            Line("- Operation: ", ValuesText(d.operations, redact)),
            Line("- Surface: ", ValuesText(d.surfaces, redact)),
            Line("- Status codes: ", CodesText(d.statusCodes)));
  }

  lemma WhenIs(earliest: Option<Moment>, latest: Option<Moment>)
    ensures NoteText(Between(earliest, latest)) == WhenText(earliest, latest)
  {
    if earliest.Some? && latest.Some? {
      MomentIs(earliest.value);
      MomentIs(latest.value);
    }
  }

  lemma MomentIs(m: Moment)
    ensures FormatMoment(m) == MomentText(m)
  {}

  // ------------------------------------------------------------------ the whole body

  lemma HeadedIs(section: Section, inner: seq<Piece>, header: string, text: string)
    requires HeaderText(section) == header && Rendered(inner) == text
    ensures Rendered(Headed(section, inner)) == header + text
  {
    RenderedJoin([Fixed(Header(section))], inner);
    RenderedOne(Fixed(Header(section)));
  }

  lemma ExplanationIs(d: Issue, redact: string -> bool)
    ensures Rendered([Inline(Show(d.explanation, redact), 1000), Fixed(LineEnd)])
            == Value(d.explanation, 1000, redact) + "\n"
  {
    var a, b := Inline(Show(d.explanation, redact), 1000), Fixed(LineEnd);
    assert [a, b] == [a] + [b];
    RenderedJoin([a], [b]);
    RenderedOne(a);
    RenderedOne(b);
    ValueIs(d.explanation, 1000, redact);
  }

  lemma ReportsAre(d: Issue, redact: string -> bool)
    ensures Rendered(ReportPieces(d, redact)) == ReportsText(d, redact)
  {
    ExplanationIs(d, redact);
    ImpactSectionIs(d, redact);
    FindingSectionIs(d, redact);
    HeadedIs(Impacts, ImpactSection(d, redact), "\n## Impact\n", ImpactsText(d, redact));
    HeadedIs(Findings, FindingSection(d, redact), "\n## Findings\n", FindingsText(d, redact));
    Joined3([Inline(Show(d.explanation, redact), 1000), Fixed(LineEnd)], Headed(Impacts, ImpactSection(d, redact)),
            Headed(Findings, FindingSection(d, redact)), Value(d.explanation, 1000, redact) + "\n",
            "\n## Impact\n" + ImpactsText(d, redact), "\n## Findings\n" + FindingsText(d, redact));
  }

  lemma VolumeIs(count: int)
    ensures Rendered(Headed(Volume, [Fixed(Reports(count))])) == "\n## Volume\n" + (Decimal(count) + " report(s)\n")
  {
    RenderedOne(Fixed(Reports(count)));
    HeadedIs(Volume, [Fixed(Reports(count))], "\n## Volume\n", Decimal(count) + " report(s)\n");
  }

  lemma PeriodIs(d: Issue)
    ensures Rendered(Headed(Period, [Fixed(Between(d.earliest, d.latest))]))
            == "\n## When\n" + WhenText(d.earliest, d.latest)
  {
    RenderedOne(Fixed(Between(d.earliest, d.latest)));
    WhenIs(d.earliest, d.latest);
    HeadedIs(Period, [Fixed(Between(d.earliest, d.latest))], "\n## When\n", WhenText(d.earliest, d.latest));
  }

  lemma ContextIs(d: Issue, redact: string -> bool)
    ensures Rendered(ContextPieces(d, redact)) == ContextText(d, redact)
  {
    var a, b := Headed(Workarounds, WorkaroundSection(d, redact)), Headed(Places, PlaceSection(d, redact));
    var c, e := Headed(Period, [Fixed(Between(d.earliest, d.latest))]), Headed(Volume, [Fixed(Reports(d.reportCount))]);
    WorkaroundSectionIs(d, redact);
    PlaceSectionIs(d, redact);
    HeadedIs(Workarounds, WorkaroundSection(d, redact), "\n## Workaround\n", WorkaroundsText(d, redact));
    HeadedIs(Places, PlaceSection(d, redact), "\n## Where\n", PlacesText(d, redact));
    PeriodIs(d);
    VolumeIs(d.reportCount);
    Joined3(a, b, c, "\n## Workaround\n" + WorkaroundsText(d, redact), "\n## Where\n" + PlacesText(d, redact),
            "\n## When\n" + WhenText(d.earliest, d.latest));
    RenderedJoin(a + b + c, e);
  }

  /**
   * Before the footer the body reads so: under each heading that section's own values, in order,
   * up to its limit, each redacted or shown, with the number of those left out.
   */
  lemma BodyReads(d: Issue, redact: string -> bool)
    ensures Rendered(BodyPieces(d, redact)) == ReportsText(d, redact) + ContextText(d, redact)
  {
    ReportsAre(d, redact);
    ContextIs(d, redact);
    RenderedJoin(ReportPieces(d, redact), ContextPieces(d, redact));
  }

  // ------------------------------------------------------------------ what is published

  function FooterText(d: Issue): string {
    "\n\n" + ("<!-- epode-group: " + AsString(GroupMarker(d.groupKey)) + " -->") + "\n\n"
    + "[View this feedback group in Epode](" + CleanLink(d.backlink) + ")"
  }

  /** The bytes left to a body that must be cut: room for the notice, the footer and a closing fence is kept. */
  function BytesLeft(footer: string): nat {
    var reserved := ByteLen("\n\n\U{2026} and additional content was omitted." + footer) + 4;
    if reserved <= 65536 then 65536 - reserved else 0
  }

  /** As many whole characters of the text as these bytes hold. */
  predicate Fills(kept: string, text: string, bytes: nat) {
    && kept <= text && ByteLen(kept) <= bytes
    && (kept != text ==> bytes < ByteLen(text[..|kept| + 1]))
  }

  predicate CutTo(text: string, footer: string, body: string, kept: string) {
    && Fills(kept, text, BytesLeft(footer))
    && body == kept + (if Fences(kept) % 2 == 1 then "\n" + "```" else "")
               + ("\n\n\U{2026} and additional content was omitted." + footer)
  }

  /** A text that fits is published as it is; a longer one is cut, its fence closed, and keeps its footer. */
  ghost predicate PublishedAs(text: string, footer: string, body: string) {
    if ByteLen(text) <= 65536 then body == text else exists kept :: CutTo(text, footer, body, kept)
  }

  lemma CappedIs(text: string, footer: string)
    ensures PublishedAs(text, footer, Capped(text, footer))
  {
    if GITHUB_BODY_LIMIT < ByteLen(text) {
      CutIsLongest(text, footer);
      assert CutTo(text, footer, Capped(text, footer), Kept(text, footer));
    }
  }

  /** What the program publishes of an issue under a policy. */
  lemma PublishedReads(d: Issue, redact: string -> bool)
    ensures PublishedAs(ReportsText(d, redact) + ContextText(d, redact) + FooterText(d), FooterText(d),
                        PublishedBody(d, redact))
  {
    BodyReads(d, redact);
    CappedIs(FullBody(d, redact), IssueFooter(d));
  }

  /**
   * The whole renderer: the policy, the sections in order, the footer and the cap. The body is the
   * text of the issue's sections under a policy that redacts exactly what must be redacted.
   */
  method RenderIssueBody(d: Issue, sensitive: string -> bool) returns (body: string)
    ensures exists redact ::
              && Follows(d, sensitive, redact) && body == PublishedBody(d, redact)
              && PublishedAs(ReportsText(d, redact) + ContextText(d, redact) + FooterText(d), FooterText(d), body)
  {
    var redactions := RedactionsForIssue(d, sensitive);
    var redact := (v: string) => v in redactions || sensitive(v);
    assert Follows(d, sensitive, redact);
    body := RenderUnder(d, redact);
    PublishedReads(d, redact);
  }

  // ------------------------------------------------------------------ what is scanned

  function ValueOf(): Impact -> seq<string> {
    (i: Impact) => [i.value]
  }

  function FieldsOf(): Finding -> seq<string> {
    (f: Finding) => [f.kind, f.topic] + f.details
  }

  function DetailsOf(): Finding -> seq<string> {
    (f: Finding) => f.details
  }

  function DetailOf(): Workaround -> seq<string> {
    (w: Workaround) => if w.detail.Some? then [w.detail.value] else []
  }

  function Flat<T>(items: seq<T>, fields: T -> seq<string>): seq<string> {
    if items == [] then [] else fields(items[0]) + Flat(items[1..], fields)
  }

  lemma {:induction false} ImpactsScanned(impacts: seq<Impact>)
    ensures ImpactValues(impacts) == Flat(impacts, ValueOf())
  {
    if impacts != [] {
      ImpactsScanned(impacts[1..]);
    }
  }

  lemma {:induction false} FindingsScanned(findings: seq<Finding>)
    ensures FindingFields(findings) == Flat(findings, FieldsOf())
    ensures FindingDetails(findings) == Flat(findings, DetailsOf())
  {
    if findings != [] {
      FindingsScanned(findings[1..]);
    }
  }

  lemma {:induction false} WorkaroundsScanned(workarounds: seq<Workaround>)
    ensures WorkaroundDetails(workarounds) == Flat(workarounds, DetailOf())
  {
    if workarounds != [] {
      WorkaroundsScanned(workarounds[1..]);
    }
  }

  /**
   * What is scanned for credentials split over neighbouring values: the values in the order in
   * which the title and the body show them, up to the same limits, and every detail of a finding.
   */
  lemma ScannedInOrder(d: Issue)
    ensures ScannedFields(d)
            == [d.primaryKind, d.primaryTopic, d.primaryOperation, d.explanation]
               + Flat(AtMost(d.impacts, 20), ValueOf())
               + Flat(AtMost(d.findings, 25), FieldsOf())
               + Flat(AtMost(d.workarounds, 20), DetailOf())
               + AtMost(d.operations, 20)
               + AtMost(d.surfaces, 20)
    ensures ScannedDetails(d) == Flat(AtMost(d.findings, 25), DetailsOf())
  {
    ImpactsScanned(AtMost(d.impacts, 20));
    FindingsScanned(AtMost(d.findings, 25));
    WorkaroundsScanned(AtMost(d.workarounds, 20));
  }

  /** The fields that count are those a single text would read as one opaque run. */
  lemma FragmentsAreOpaque(value: string)
    ensures IsFragment(value) <==>
            value != "" && forall c | c in value :: c as int < 128 && O.IsOpaque(c as int as byte)
  {
    if IsFragment(value) {
      forall c | c in value ensures c as int < 128 && O.IsOpaque(c as int as byte) {}
    }
  }

  // ------------------------------------------------------------------ numbers

  lemma DecimalReads(n: int)
    ensures if n < 0 then Decimal(n)[0] == '-' && Read(Decimal(n)[1..]) == -n else Read(Decimal(n)) == n
    ensures forall c | c in Decimal(n) :: '0' <= c <= '9' || (n < 0 && c == '-')
  {
    DigitsRead(if n < 0 then -n else n);
    if n < 0 {
      assert Decimal(n)[1..] == Digits(-n);
    }
  }
}
