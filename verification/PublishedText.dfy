/** From the values that were scanned to the texts that are published. */
module PublishedText {
  import opened Basics
  import opened IssueText
  import opened IssueRedaction
  import opened IssueBody

  /** A detail without triple backquotes, single-spaced and short enough. */
  predicate Tidy(value: string, max: nat) {
    FenceFree(value) && SingleSpaced(value) && |value| <= max
  }

  /** What is published of a fenced value is the value itself exactly when it is tidy. */
  lemma FencedBodyKeepsIff(value: string, max: nat)
    requires 0 < max
    ensures FencedBody(value, max) == value <==> Tidy(value, max)
  {
    RemovingKeepsIff(value);
    CleanTextKeepsIff(value, max);
    if FencedBody(value, max) == value {
      RemovingLeavesNoFence(value);
      CleanTextIsFenceFree(RemoveFences(value), max);
    }
  }

  type Detector = string -> bool

  /** Escaping and neutralising add nothing a reader would miss: an inline text reads as its cleaned value. */
  lemma InlineReadsAsCleaned(value: string, max: nat)
    ensures Visible(Unescape(InlineText(Clear(value), max))) == Visible(CleanText(value, max))
  {
    var cleaned := CleanText(value, max);
    EscapingRoundTrip(Neutralize(cleaned), true);
    NeutralizedReadsTheSame(cleaned);
  }

  /**
   * No tidy text between fences is sensitive or belongs to a sensitive window, wherever in the
   * body it stands.
   */
  lemma TidyTextsAreSafe(d: Issue, sensitive: Detector, redact: string -> bool, piece: Piece, start: nat, size: nat)
    requires Follows(d, sensitive, redact)
    requires piece in BodyPieces(d, redact) && piece.Fenced? && Tidy(piece.value, piece.max) && 0 < piece.max
    ensures var published := FencedBody(piece.value, piece.max);
            && !sensitive(published)
            && !MemberAt(ScannedFields(d), sensitive, start, size, published)
            && !MemberAt(ScannedDetails(d), sensitive, start, size, published)
  {
    FencedBodyKeepsIff(piece.value, piece.max);
    assert piece.value in ShownValues(piece);
    NoWindowMemberIsPublished(d, sensitive, redact, start, size, piece.value);
  }

  /** An issue that says nothing but one workaround. */
  function OneWorkaround(detail: string): Issue {
    Issue([], "", "", "", "", [], [], [Workaround(true, Some(detail))], [], [], [], Option.None, Option.None, 1, "")
  }

  lemma OneWorkaroundHasNoWindow(detail: string, sensitive: Detector, value: string)
    ensures !InSensitiveWindow(ScannedFields(OneWorkaround(detail)), sensitive, value)
    ensures !InSensitiveWindow(ScannedDetails(OneWorkaround(detail)), sensitive, value)
  {
    var fields := ScannedFields(OneWorkaround(detail));
    assert WorkaroundDetails([Workaround(true, Some(detail))]) == [detail];
    assert fields == ["", "", "", "", detail];
    forall start: nat, size: nat ensures !MemberAt(fields, sensitive, start, size, value) {
      if 2 <= size && start + size <= |fields| {
        var window := fields[start..start + size];
        assert window[0] == fields[start] == "" && window[0] in window;
        assert !IsFragment("");
      }
    }
    assert ScannedDetails(OneWorkaround(detail)) == [];
  }

  lemma WorkaroundIsInTheBody(d: Issue, redact: string -> bool, piece: Piece)
    requires piece in WorkaroundSection(d, redact)
    ensures piece in BodyPieces(d, redact)
  {
    assert piece in Headed(Workarounds, WorkaroundSection(d, redact));
    assert piece in ContextPieces(d, redact);
  }

  /** A clear detail whose published text the policy would have redacted. */
  ghost predicate SlipsThrough(d: Issue, sensitive: Detector, piece: Piece) {
    && Follows(d, sensitive, sensitive)
    && piece in BodyPieces(d, sensitive) && piece.Fenced?
    && !sensitive(piece.value) && sensitive(FencedBody(piece.value, piece.max))
  }

  lemma WorkaroundSlipsThrough(detail: string, sensitive: Detector) returns (d: Issue, piece: Piece)
    requires !sensitive(detail) && sensitive(FencedBody(detail, 350))
    ensures SlipsThrough(d, sensitive, piece) && piece.value == detail
  {
    d, piece := OneWorkaround(detail), Fenced(Used, detail, 350);
    forall v ensures sensitive(v) <==> MustRedact(d, sensitive, v) {
      OneWorkaroundHasNoWindow(detail, sensitive, v);
    }
    assert WorkaroundPiece(d.workarounds[0], sensitive) == piece;
    assert WorkaroundSection(d, sensitive)[0] == piece;
    WorkaroundIsInTheBody(d, sensitive, piece);
  }
}
