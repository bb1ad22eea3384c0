/** The published title and body of an issue, piece by piece. */
module IssueBody {
  import opened Basics
  import opened Numerals
  import opened IssueText
  import opened IssueRedaction

  /** A customer value on its way into the text. */
  datatype Shown = Redacted | Clear(value: string)

  datatype Section = Impacts | Findings | Workarounds | Places | Period | Volume

  /** The program's own text in the body. */
  datatype Note =
    | Header(section: Section)
    | LineEnd
    | Bullet
    | Comma
    | Count(count: int)
    | None(section: Section)
    | More(section: Section, count: int)
    | MoreValues(count: int)
    | MoreDetails(count: int)
    | DetailsOmitted(count: int)
    | DetailOmitted(used: bool)
    | NoDetail(used: bool)
    | Operations
    | Surfaces
    | Unknown
    | StatusCodes(codes: seq<int>)
    | Between(earliest: Option<Moment>, latest: Option<Moment>)
    | Reports(count: int)

  /** What a fenced customer text is called. */
  datatype Name = Detail | Used | Reported

  /** A stretch of the body: program text, or customer text in one of three dresses. */
  datatype Piece =
    | Fixed(note: Note)
    | Inline(shown: Shown, max: nat)
    | Heading(kind: Shown, topic: Shown, count: int)
    | Fenced(name: Name, value: string, max: nat)

  // ------------------------------------------------------------------ rendering a piece

  function Decimal(n: int): string {
    if n < 0 then "-" + Digits(-n) else Digits(n)
  }

  function Padded(n: nat): string {
    if n < 10 then "0" + Digits(n) else Digits(n)
  }

  function FormatMoment(m: Moment): string {
    Digits(m.year) + "-" + Padded(m.month) + "-" + Padded(m.day) + " "
    + Padded(m.hour) + ":" + Padded(m.minute) + ":" + Padded(m.second) + " UTC"
  }

  function Show(value: string, redact: string -> bool): Shown {
    if redact(value) then Redacted else Clear(value)
  }

  function InlineText(shown: Shown, max: nat): string {
    match shown
    case Redacted => "[redacted]"
    case Clear(value) => EscapeInline(Neutralize(CleanText(value, max)))
  }

  function ReplaceBackquotes(s: string): (t: string)
    ensures |t| == |s|
    ensures forall i | 0 <= i < |s| :: t[i] == if s[i] == '`' then '\'' else s[i]
  {
    seq(|s|, i requires 0 <= i < |s| => if s[i] == '`' then '\'' else s[i])
  }

  function CodeText(shown: Shown): string {
    match shown
    case Redacted => "redacted"
    case Clear(value) => ReplaceBackquotes(Neutralize(CleanText(value, 100)))
  }

  function StatusList(codes: seq<int>): string {
    if codes == [] then ""
    else Decimal(codes[0]) + (if |codes| > 1 then ", " else "") + StatusList(codes[1..])
  }

  function HeaderText(section: Section): string {
    match section
    case Impacts => "\n## Impact\n"
    case Findings => "\n## Findings\n"
    case Workarounds => "\n## Workaround\n"
    case Places => "\n## Where\n"
    case Period => "\n## When\n"
    case Volume => "\n## Volume\n"
  }

  function NoneText(section: Section): string {
    match section
    case Impacts => "- No impact reported.\n"
    case Findings => "- No findings reported.\n"
    case _ => "- No workaround reported.\n"
  }

  function Noun(section: Section): string {
    match section
    case Impacts => "impact values"
    case Findings => "finding groups"
    case _ => "workarounds"
  }

  function PeriodText(earliest: Option<Moment>, latest: Option<Moment>): string {
    if earliest.Some? && latest.Some?
    then FormatMoment(earliest.value) + " \U{2192} " + FormatMoment(latest.value) + "\n"
    else "No occurrence time available.\n"
  }

  function NoteText(note: Note): string {
    match note
    case Header(section) => HeaderText(section)
    case LineEnd => "\n"
    case Bullet => "- "
    case Comma => ", "
    case Count(n) => ": " + Decimal(n) + "\n"
    case None(section) => NoneText(section)
    case More(section, n) => "- \U{2026} and " + Decimal(n) + " more " + Noun(section) + ".\n"
    case MoreValues(n) => ", \U{2026} and " + Decimal(n) + " more"
    case MoreDetails(n) => "  - \U{2026} and " + Decimal(n) + " more detail(s).\n"
    case DetailsOmitted(n) => "  - " + Decimal(n) + " sensitive detail(s) omitted.\n"
    case DetailOmitted(used) => (if used then "- Used." else "- Reported.") + " Sensitive detail omitted.\n"
    case NoDetail(used) =>
      if used then "- A workaround was used; " + "no detail was provided.\n" else "- No workaround was used.\n"
    case Operations => "- Operation: "
    case Surfaces => "- Surface: "
    case Unknown => "unknown"
    case StatusCodes(codes) => "- Status codes: " + (if codes == [] then "none" else StatusList(codes)) + "\n"
    case Between(earliest, latest) => PeriodText(earliest, latest)
    case Reports(n) => Decimal(n) + " report(s)\n"
  }

  function NameText(name: Name): string {
    match name
    case Detail => "Detail"
    case Used => "Used"
    case Reported => "Reported"
  }

  /** Finding details are indented under their heading, workarounds are not. */
  function Indent(name: Name): string {
    if name == Detail then "  " else ""
  }

  function HeadingText(kind: Shown, topic: Shown, count: int): string {
    "- " + "`" + (CodeText(kind) + "/" + CodeText(topic)) + "`" + (": " + Decimal(count) + " report(s)\n")
  }

  /** What of a customer text stands between its fences. */
  function FencedBody(value: string, max: nat): string {
    CleanText(RemoveFences(value), max)
  }

  function FencedText(name: Name, value: string, max: nat): string {
    (Indent(name) + "- " + NameText(name) + ":\n")
    + (Indent(name) + "  " + "```" + "text\n")
    + (Indent(name) + "  " + FencedBody(value, max) + "\n")
    + (Indent(name) + "  " + "```" + "\n")
  }

  function PieceText(piece: Piece): string {
    match piece
    case Fixed(note) => NoteText(note)
    case Inline(shown, max) => InlineText(shown, max)
    case Heading(kind, topic, count) => HeadingText(kind, topic, count)
    case Fenced(name, value, max) => FencedText(name, value, max)
  }

  function Rendered(pieces: seq<Piece>): string {
    if pieces == [] then "" else PieceText(pieces[0]) + Rendered(pieces[1..])
  }

  // ------------------------------------------------------------------ the sections

  function MoreLine(actual: nat, shown: nat, section: Section): seq<Piece> {
    if actual > shown then [Fixed(More(section, actual - shown))] else []
  }

  function ImpactPieces(impacts: seq<Impact>, redact: string -> bool): seq<Piece> {
    if impacts == [] then []
    else
      [Fixed(Bullet), Inline(Show(impacts[0].value, redact), 100), Fixed(Count(impacts[0].count))]
      + ImpactPieces(impacts[1..], redact)
  }

  function ImpactSection(d: Issue, redact: string -> bool): seq<Piece> {
    if d.impacts == [] then [Fixed(Note.None(Impacts))]
    else
      ImpactPieces(Take(d.impacts, MAX_IMPACT_VALUES), redact)
      + MoreLine(|d.impacts|, MAX_IMPACT_VALUES, Impacts)
  }

  /** What the walk over a finding's details has shown and held back so far. */
  datatype Walk = Walk(shown: seq<string>, hidden: nat)

  /** One detail: nothing more once three are shown, and no detail twice. */
  function WalkStep(walk: Walk, seen: seq<string>, detail: string, redact: string -> bool): Walk {
    if |walk.shown| == MAX_DETAILS_PER_FINDING || detail in seen then walk
    else if redact(detail) then walk.(hidden := walk.hidden + 1)
    else walk.(shown := walk.shown + [detail])
  }

  function WalkDetails(details: seq<string>, redact: string -> bool): (walk: Walk)
    ensures |walk.shown| <= MAX_DETAILS_PER_FINDING
  {
    if details == [] then Walk([], 0)
    else
      var before := details[..|details| - 1];
      WalkStep(WalkDetails(before, redact), before, details[|details| - 1], redact)
  }

  function DetailPieces(shown: seq<string>): (pieces: seq<Piece>)
    ensures |pieces| == |shown|
    ensures forall i | 0 <= i < |shown| :: pieces[i] == Fenced(Detail, shown[i], 300)
  {
    seq(|shown|, i requires 0 <= i < |shown| => Fenced(Detail, shown[i], 300))
  }

  /** How many details were held back, and how many more there are. */
  function LeftOverPieces(hidden: nat, remaining: int): seq<Piece> {
    (if hidden > 0 then [Fixed(DetailsOmitted(hidden))] else [])
    + (if remaining > 0 then [Fixed(MoreDetails(remaining))] else [])
  }

  function FindingPieces(f: Finding, redact: string -> bool): seq<Piece> {
    var walk := WalkDetails(f.details, redact);
    [Heading(Show(f.kind, redact), Show(f.topic, redact), f.count)]
    + DetailPieces(walk.shown)
    + LeftOverPieces(walk.hidden, f.detailCount - |walk.shown| - walk.hidden)
  }

  function FindingsPieces(findings: seq<Finding>, redact: string -> bool): seq<Piece> {
    if findings == [] then [] else FindingPieces(findings[0], redact) + FindingsPieces(findings[1..], redact)
  }

  function FindingSection(d: Issue, redact: string -> bool): seq<Piece> {
    if d.findings == [] then [Fixed(Note.None(Findings))]
    else
      FindingsPieces(Take(d.findings, MAX_FINDING_GROUPS), redact)
      + MoreLine(|d.findings|, MAX_FINDING_GROUPS, Findings)
  }

  function WorkaroundPiece(w: Workaround, redact: string -> bool): Piece {
    match w.detail
    case Some(detail) =>
      if redact(detail) then Fixed(DetailOmitted(w.used))
      else Fenced(if w.used then Used else Reported, detail, 350)
    case None => Fixed(NoDetail(w.used))
  }

  function WorkaroundPieces(workarounds: seq<Workaround>, redact: string -> bool): seq<Piece> {
    if workarounds == [] then []
    else [WorkaroundPiece(workarounds[0], redact)] + WorkaroundPieces(workarounds[1..], redact)
  }

  function WorkaroundSection(d: Issue, redact: string -> bool): seq<Piece> {
    if d.workarounds == [] then [Fixed(Note.None(Workarounds))]
    else
      WorkaroundPieces(Take(d.workarounds, MAX_WORKAROUNDS), redact)
      + MoreLine(|d.workarounds|, MAX_WORKAROUNDS, Workarounds)
  }

  function CommaSeparated(values: seq<string>, redact: string -> bool): seq<Piece> {
    if values == [] then []
    else
      [Inline(Show(values[0], redact), 100)]
      + (if |values| > 1 then [Fixed(Comma)] else [])
      + CommaSeparated(values[1..], redact)
  }

  function ValuesPieces(values: seq<string>, redact: string -> bool): seq<Piece> {
    if values == [] then [Fixed(Unknown)]
    else
      CommaSeparated(Take(values, MAX_WHERE_VALUES), redact)
      + (if |values| > MAX_WHERE_VALUES
         then [Fixed(MoreValues(|values| - MAX_WHERE_VALUES))] else [])
  }

  function Labelled(tag: Note, pieces: seq<Piece>): seq<Piece> {
    [Fixed(tag)] + pieces + [Fixed(LineEnd)]
  }

  function PlaceSection(d: Issue, redact: string -> bool): seq<Piece> {
    Labelled(Operations, ValuesPieces(d.operations, redact))
    + Labelled(Surfaces, ValuesPieces(d.surfaces, redact))
    + [Fixed(StatusCodes(d.statusCodes))]
  }

  function Headed(section: Section, pieces: seq<Piece>): seq<Piece> {
    [Fixed(Header(section))] + pieces
  }

  function ReportPieces(d: Issue, redact: string -> bool): seq<Piece> {
    [Inline(Show(d.explanation, redact), 1000), Fixed(LineEnd)]
    + Headed(Impacts, ImpactSection(d, redact))
    + Headed(Findings, FindingSection(d, redact))
  }

  function ContextPieces(d: Issue, redact: string -> bool): seq<Piece> {
    Headed(Workarounds, WorkaroundSection(d, redact))
    + Headed(Places, PlaceSection(d, redact))
    + Headed(Period, [Fixed(Between(d.earliest, d.latest))])
    + Headed(Volume, [Fixed(Reports(d.reportCount))])
  }

  function BodyPieces(d: Issue, redact: string -> bool): seq<Piece> {
    ReportPieces(d, redact) + ContextPieces(d, redact)
  }

  function TitleValues(d: Issue, redact: string -> bool): seq<Shown> {
    [Show(d.primaryKind, redact), Show(d.primaryTopic, redact), Show(d.primaryOperation, redact)]
  }

  // ------------------------------------------------------------------ what is shown

  function ShownValues(piece: Piece): set<string> {
    match piece
    case Fixed(_) => {}
    case Inline(shown, _) => ClearValue(shown)
    case Heading(kind, topic, _) => ClearValue(kind) + ClearValue(topic)
    case Fenced(_, value, _) => {value}
  }

  function ClearValue(shown: Shown): set<string> {
    if shown.Clear? then {shown.value} else {}
  }

  /** A set of customer values from which a stretch of the body may draw. */
  predicate Draws(pieces: seq<Piece>, allowed: iset<string>) {
    forall p | p in pieces :: ShownWithin(p, allowed)
  }

  predicate ShownWithin(piece: Piece, allowed: iset<string>) {
    forall v | v in ShownValues(piece) :: v in allowed
  }

  lemma DrawsJoin(a: seq<Piece>, b: seq<Piece>, allowed: iset<string>)
    requires Draws(a, allowed) && Draws(b, allowed)
    ensures Draws(a + b, allowed)
  {}

  /** The scanned values that are not redacted. */
  ghost function Publishable(fields: seq<string>, redact: string -> bool): iset<string> {
    iset v | v in fields && !redact(v)
  }

  lemma {:induction false} ImpactsDraw(impacts: seq<Impact>, redact: string -> bool, fields: seq<string>)
    requires forall v | v in ImpactValues(impacts) :: v in fields
    ensures Draws(ImpactPieces(impacts, redact), Publishable(fields, redact))
  {
    if impacts != [] {
      ImpactIsScanned(impacts, 0);
      ImpactsDraw(impacts[1..], redact, fields);
    }
  }

  lemma {:induction false} WalkShows(details: seq<string>, redact: string -> bool)
    ensures forall v | v in WalkDetails(details, redact).shown :: v in details && !redact(v)
  {
    if details != [] {
      WalkShows(details[..|details| - 1], redact);
    }
  }

  lemma DetailsDraw(shown: seq<string>, allowed: iset<string>)
    requires forall v | v in shown :: v in allowed
    ensures Draws(DetailPieces(shown), allowed)
  {}

  lemma FindingDraws(f: Finding, redact: string -> bool, fields: seq<string>)
    requires f.kind in fields && f.topic in fields && forall v | v in f.details :: v in fields
    ensures Draws(FindingPieces(f, redact), Publishable(fields, redact))
  {
    var allowed, walk := Publishable(fields, redact), WalkDetails(f.details, redact);
    var heading := [Heading(Show(f.kind, redact), Show(f.topic, redact), f.count)];
    assert ShownWithin(heading[0], allowed);
    WalkShows(f.details, redact);
    DetailsDraw(walk.shown, allowed);
    DrawsJoin(heading, DetailPieces(walk.shown), allowed);
    var leftOver := LeftOverPieces(walk.hidden, f.detailCount - |walk.shown| - walk.hidden);
    NotesDraw(leftOver, allowed);
    DrawsJoin(heading + DetailPieces(walk.shown), leftOver, allowed);
  }

  lemma NotesDraw(pieces: seq<Piece>, allowed: iset<string>)
    requires forall p | p in pieces :: p.Fixed?
    ensures Draws(pieces, allowed)
  {}

  lemma {:induction false} FindingsDraw(findings: seq<Finding>, redact: string -> bool, fields: seq<string>)
    requires forall v | v in FindingFields(findings) :: v in fields
    ensures Draws(FindingsPieces(findings, redact), Publishable(fields, redact))
  {
    if findings != [] {
      var allowed := Publishable(fields, redact);
      FindingIsScanned(findings, 0);
      FindingDraws(findings[0], redact, fields);
      FindingsDraw(findings[1..], redact, fields);
      DrawsJoin(FindingPieces(findings[0], redact), FindingsPieces(findings[1..], redact), allowed);
    }
  }

  lemma {:induction false} WorkaroundsDraw(workarounds: seq<Workaround>, redact: string -> bool, fields: seq<string>)
    requires forall v | v in WorkaroundDetails(workarounds) :: v in fields
    ensures Draws(WorkaroundPieces(workarounds, redact), Publishable(fields, redact))
  {
    if workarounds != [] {
      var piece, allowed := WorkaroundPiece(workarounds[0], redact), Publishable(fields, redact);
      assert workarounds[0].detail.Some? ==> workarounds[0].detail.value in WorkaroundDetails(workarounds);
      assert ShownWithin(piece, allowed);
      WorkaroundsDraw(workarounds[1..], redact, fields);
      DrawsJoin([piece], WorkaroundPieces(workarounds[1..], redact), allowed);
    }
  }

  lemma {:induction false} CommasDraw(values: seq<string>, redact: string -> bool, fields: seq<string>)
    requires forall v | v in values :: v in fields
    ensures Draws(CommaSeparated(values, redact), Publishable(fields, redact))
  {
    if values != [] {
      CommasDraw(values[1..], redact, fields);
    }
  }

  lemma ValuesDraw(values: seq<string>, redact: string -> bool, fields: seq<string>)
    requires forall v | v in Take(values, MAX_WHERE_VALUES) :: v in fields
    ensures Draws(ValuesPieces(values, redact), Publishable(fields, redact))
  {
    CommasDraw(Take(values, MAX_WHERE_VALUES), redact, fields);
  }

  lemma LabelledDraws(tag: Note, pieces: seq<Piece>, allowed: iset<string>)
    requires Draws(pieces, allowed)
    ensures Draws(Labelled(tag, pieces), allowed)
  {}

  lemma PlacesDraw(d: Issue, redact: string -> bool)
    ensures Draws(PlaceSection(d, redact), Publishable(ScannedFields(d), redact))
  {
    var allowed := Publishable(ScannedFields(d), redact);
    ValuesDraw(d.operations, redact, ScannedFields(d));
    ValuesDraw(d.surfaces, redact, ScannedFields(d));
    var a := Labelled(Operations, ValuesPieces(d.operations, redact));
    var b := Labelled(Surfaces, ValuesPieces(d.surfaces, redact));
    LabelledDraws(Operations, ValuesPieces(d.operations, redact), allowed);
    LabelledDraws(Surfaces, ValuesPieces(d.surfaces, redact), allowed);
    DrawsJoin(a, b, allowed);
    DrawsJoin(a + b, [Fixed(StatusCodes(d.statusCodes))], allowed);
  }

  lemma ScannedParts(d: Issue)
    ensures d.explanation in ScannedFields(d)
    ensures forall v | v in ImpactValues(Take(d.impacts, MAX_IMPACT_VALUES)) :: v in ScannedFields(d)
    ensures forall v | v in FindingFields(Take(d.findings, MAX_FINDING_GROUPS)) :: v in ScannedFields(d)
    ensures forall v | v in WorkaroundDetails(Take(d.workarounds, MAX_WORKAROUNDS)) :: v in ScannedFields(d)
  {
    var first := [d.primaryKind, d.primaryTopic, d.primaryOperation, d.explanation];
    assert first[3] in first;
  }

  lemma ImpactSectionDraws(d: Issue, redact: string -> bool)
    ensures Draws(ImpactSection(d, redact), Publishable(ScannedFields(d), redact))
  {
    ScannedParts(d);
    ImpactsDraw(Take(d.impacts, MAX_IMPACT_VALUES), redact, ScannedFields(d));
  }

  lemma FindingSectionDraws(d: Issue, redact: string -> bool)
    ensures Draws(FindingSection(d, redact), Publishable(ScannedFields(d), redact))
  {
    ScannedParts(d);
    FindingsDraw(Take(d.findings, MAX_FINDING_GROUPS), redact, ScannedFields(d));
  }

  lemma WorkaroundSectionDraws(d: Issue, redact: string -> bool)
    ensures Draws(WorkaroundSection(d, redact), Publishable(ScannedFields(d), redact))
  {
    ScannedParts(d);
    WorkaroundsDraw(Take(d.workarounds, MAX_WORKAROUNDS), redact, ScannedFields(d));
  }

  lemma HeadedDraws(body: seq<Piece>, section: Section, pieces: seq<Piece>, allowed: iset<string>)
    requires Draws(body, allowed) && Draws(pieces, allowed)
    ensures Draws(body + Headed(section, pieces), allowed)
  {}

  lemma ReportDraws(d: Issue, redact: string -> bool)
    ensures Draws(ReportPieces(d, redact), Publishable(ScannedFields(d), redact))
  {
    var allowed := Publishable(ScannedFields(d), redact);
    ImpactSectionDraws(d, redact);
    FindingSectionDraws(d, redact);
    ScannedParts(d);
    var body := [Inline(Show(d.explanation, redact), 1000), Fixed(LineEnd)];
    assert Draws(body, allowed);
    HeadedDraws(body, Impacts, ImpactSection(d, redact), allowed);
    body := body + Headed(Impacts, ImpactSection(d, redact));
    HeadedDraws(body, Findings, FindingSection(d, redact), allowed);
  }

  lemma ContextDraws(d: Issue, redact: string -> bool)
    ensures Draws(ContextPieces(d, redact), Publishable(ScannedFields(d), redact))
  {
    var allowed := Publishable(ScannedFields(d), redact);
    WorkaroundSectionDraws(d, redact);
    PlacesDraw(d, redact);
    var body := Headed(Workarounds, WorkaroundSection(d, redact));
    HeadedDraws([], Workarounds, WorkaroundSection(d, redact), allowed);
    assert [] + body == body;
    HeadedDraws(body, Places, PlaceSection(d, redact), allowed);
    body := body + Headed(Places, PlaceSection(d, redact));
    HeadedDraws(body, Period, [Fixed(Between(d.earliest, d.latest))], allowed);
    body := body + Headed(Period, [Fixed(Between(d.earliest, d.latest))]);
    HeadedDraws(body, Volume, [Fixed(Reports(d.reportCount))], allowed);
  }

  lemma BodyDraws(d: Issue, redact: string -> bool)
    ensures Draws(BodyPieces(d, redact), Publishable(ScannedFields(d), redact))
  {
    ReportDraws(d, redact);
    ContextDraws(d, redact);
    DrawsJoin(ReportPieces(d, redact), ContextPieces(d, redact), Publishable(ScannedFields(d), redact));
  }

  /** The customer values anywhere in the title and the body. */
  ghost predicate Published(d: Issue, redact: string -> bool, value: string) {
    || (exists p | p in BodyPieces(d, redact) :: value in ShownValues(p))
    || Clear(value) in TitleValues(d, redact)
  }

  /** Every customer value the title or the body shows was scanned, and is not redacted. */
  lemma PublishedIsScanned(d: Issue, redact: string -> bool, value: string)
    requires Published(d, redact, value)
    ensures value in ScannedFields(d) && !redact(value)
  {
    BodyDraws(d, redact);
    if p :| p in BodyPieces(d, redact) && value in ShownValues(p) {
      assert ShownWithin(p, Publishable(ScannedFields(d), redact));
    } else {
      var first := [d.primaryKind, d.primaryTopic, d.primaryOperation, d.explanation];
      assert value == first[0] || value == first[1] || value == first[2];
      assert forall v | v in first :: v in ScannedFields(d);
    }
  }

  /** The policy in force redacts exactly what must be redacted. */
  ghost predicate Follows(d: Issue, sensitive: string -> bool, redact: string -> bool) {
    forall v :: redact(v) <==> MustRedact(d, sensitive, v)
  }

  /**
   * Nothing published is sensitive alone, and nothing published belongs to a window of two
   * to four neighbouring fragments, of all scanned fields or of all details, that is
   * sensitive together.
   */
  lemma NoWindowMemberIsPublished(d: Issue, sensitive: string -> bool, redact: string -> bool, start: nat, size: nat,
      value: string)
    requires Follows(d, sensitive, redact) && Published(d, redact, value)
    ensures !sensitive(value)
    ensures !MemberAt(ScannedFields(d), sensitive, start, size, value)
    ensures !MemberAt(ScannedDetails(d), sensitive, start, size, value)
  {
    PublishedIsScanned(d, redact, value);
    assert redact(value) <==> MustRedact(d, sensitive, value);
  }
}
