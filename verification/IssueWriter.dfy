/** Writing an issue body into one growing buffer, and which details of a finding it shows. */
module IssueWriter {
  import opened IssueRedaction
  import opened IssueBody
  import opened IssueCap

  // ------------------------------------------------------------------ which details are shown

  /** The first occurrence of each value, in order. */
  function Distinct(values: seq<string>): seq<string> {
    if values == [] then []
    else
      var before, last := values[..|values| - 1], values[|values| - 1];
      Distinct(before) + (if last in before then [] else [last])
  }

  function Where(values: seq<string>, keep: string -> bool): seq<string> {
    if values == [] then []
    else
      var before, last := values[..|values| - 1], values[|values| - 1];
      Where(before, keep) + (if keep(last) then [last] else [])
  }

  function Clean(redact: string -> bool): string -> bool {
    v => !redact(v)
  }

  lemma {:induction false} DistinctIsDistinct(values: seq<string>)
    ensures forall v :: v in Distinct(values) <==> v in values
    ensures forall i, j | 0 <= i < j < |Distinct(values)| :: Distinct(values)[i] != Distinct(values)[j]
  {
    if values != [] {
      DistinctIsDistinct(values[..|values| - 1]);
      assert values == values[..|values| - 1] + [values[|values| - 1]];
    }
  }

  /** These are, in rising order, the places where the values first stand. */
  predicate FirstPlaces(values: seq<string>, firsts: seq<string>, at: seq<nat>) {
    && |at| == |firsts|
    && (forall i, j | 0 <= i < j < |at| :: at[i] < at[j])
    && (forall i | 0 <= i < |at| :: FirstPlace(values, firsts[i], at[i]))
  }

  predicate FirstPlace(values: seq<string>, value: string, at: nat) {
    at < |values| && values[at] == value && value !in values[..at]
  }

  lemma FirstPlaceStays(before: seq<string>, last: string, value: string, at: nat)
    requires FirstPlace(before, value, at)
    ensures FirstPlace(before + [last], value, at)
  {
    assert (before + [last])[..at] == before[..at];
  }

  lemma LastIsFirstPlace(before: seq<string>, last: string)
    requires last !in before
    ensures FirstPlace(before + [last], last, |before|)
  {
    assert (before + [last])[..|before|] == before;
  }

  /** They stand in the order of their first occurrences. */
  lemma {:induction false} DistinctAreFirsts(values: seq<string>) returns (at: seq<nat>)
    ensures FirstPlaces(values, Distinct(values), at)
  {
    at := [];
    if values != [] {
      var before, last := values[..|values| - 1], values[|values| - 1];
      assert values == before + [last];
      at := DistinctAreFirsts(before);
      forall i | 0 <= i < |at| ensures FirstPlace(values, Distinct(before)[i], at[i]) && at[i] < |before| {
        FirstPlaceStays(before, last, Distinct(before)[i], at[i]);
      }
      if last !in before {
        LastIsFirstPlace(before, last);
        at := at + [|before|];
      }
    }
  }

  lemma WhereAppends(values: seq<string>, added: seq<string>, keep: string -> bool)
    requires |added| <= 1
    ensures Where(values + added, keep) == Where(values, keep) + (if added != [] && keep(added[0]) then added else [])
  {
    if added != [] {
      assert (values + added)[..|values|] == values;
      assert added == [added[0]];
    } else {
      assert values + added == values;
    }
  }

  /** A finding shows its first three distinct details that need not be redacted, in order. */
  lemma {:induction false} ShowsFirstThreeClearDetails(details: seq<string>, redact: string -> bool)
    ensures WalkDetails(details, redact).shown
            == Take(Where(Distinct(details), Clean(redact)), MAX_DETAILS_PER_FINDING)
  {
    if details != [] {
      var before, last := details[..|details| - 1], details[|details| - 1];
      ShowsFirstThreeClearDetails(before, redact);
      WhereAppends(Distinct(before), if last in before then [] else [last], Clean(redact));
    }
  }

  /** The walk had not stopped before the last detail. */
  predicate Unstopped(details: seq<string>, redact: string -> bool) {
    details == [] || |WalkDetails(details[..|details| - 1], redact).shown| < MAX_DETAILS_PER_FINDING
  }

  lemma {:induction false} UnstoppedWalkSplits(details: seq<string>, redact: string -> bool)
    requires Unstopped(details, redact)
    ensures WalkDetails(details, redact)
            == Walk(Where(Distinct(details), Clean(redact)), |Where(Distinct(details), redact)|)
  {
    if details != [] {
      var before, last := details[..|details| - 1], details[|details| - 1];
      assert Unstopped(before, redact);
      UnstoppedWalkSplits(before, redact);
      var added := if last in before then [] else [last];
      WhereAppends(Distinct(before), added, redact);
      WhereAppends(Distinct(before), added, Clean(redact));
    }
  }

  /** Up to where it stops, the walk splits the distinct details into shown and hidden ones. */
  lemma {:induction false} WalkSplitsUntilItStops(details: seq<string>, redact: string -> bool) returns (stop: nat)
    ensures stop <= |details|
    ensures stop < |details| ==> |WalkDetails(details, redact).shown| == MAX_DETAILS_PER_FINDING
    ensures WalkDetails(details, redact)
            == Walk(Where(Distinct(details[..stop]), Clean(redact)), |Where(Distinct(details[..stop]), redact)|)
    decreases |details|
  {
    if Unstopped(details, redact) {
      stop := |details|;
      assert details[..stop] == details;
      UnstoppedWalkSplits(details, redact);
    } else {
      var before := details[..|details| - 1];
      stop := WalkSplitsUntilItStops(before, redact);
      assert details[..stop] == before[..stop];
      WalkStops(details, redact, |details| - 1);
    }
  }

  lemma {:induction false} WalkStops(details: seq<string>, redact: string -> bool, i: nat)
    requires i <= |details| && |WalkDetails(details[..i], redact).shown| == MAX_DETAILS_PER_FINDING
    ensures WalkDetails(details, redact) == WalkDetails(details[..i], redact)
  {
    if i < |details| {
      var before := details[..|details| - 1];
      assert before[..i] == details[..i];
      WalkStops(before, redact, i);
    } else {
      assert details[..i] == details;
    }
  }

  // ------------------------------------------------------------------ the buffer

  /** One more detail walked over: repeated, hidden or shown. */
  lemma OneMoreDetail(details: seq<string>, i: nat, redact: string -> bool, seen: seq<string>, shown: seq<string>,
      hidden: nat)
    requires i < |details| && |shown| < MAX_DETAILS_PER_FINDING
    requires WalkDetails(details[..i], redact) == Walk(shown, hidden) && seen == Distinct(details[..i])
    ensures Distinct(details[..i + 1]) == (if details[i] in seen then seen else seen + [details[i]])
    ensures WalkDetails(details[..i + 1], redact)
            == (if details[i] in seen then Walk(shown, hidden)
                else if redact(details[i]) then Walk(shown, hidden + 1)
                else Walk(shown + [details[i]], hidden))
  {
    DistinctIsDistinct(details[..i]);
    assert details[..i + 1][..i] == details[..i];
  }

  lemma OneMorePiece(shown: seq<string>, detail: string)
    ensures DetailPieces(shown + [detail]) == DetailPieces(shown) + [Fenced(Detail, detail, 300)]
  {}

  lemma OneMoreFinding(findings: seq<Finding>, i: nat, redact: string -> bool)
    requires i < |findings|
    ensures FindingsPieces(findings[i..], redact)
            == FindingPieces(findings[i], redact) + FindingsPieces(findings[i + 1..], redact)
  {
    assert findings[i..][1..] == findings[i + 1..];
  }

  lemma Regroup<T>(a: seq<T>, b: seq<T>, c: seq<T>)
    ensures a + (b + c) == (a + b) + c
  {}

  lemma Around<T>(front: seq<T>, a: seq<T>, b: seq<T>, c: seq<T>)
    ensures front + a + b + c == front + (a + b + c)
  {}

  lemma NothingBefore<T>(a: seq<T>)
    ensures [] + a == a
  {}

  /** The body under construction, as the pieces written so far. */
  class Writer {
    var pieces: seq<Piece>

    constructor ()
      ensures pieces == []
    {
      pieces := [];
    }

    method Push(piece: Piece)
      modifies this
      ensures pieces == old(pieces) + [piece]
    {
      pieces := pieces + [piece];
    }

    method PushMore(actual: nat, shown: nat, section: Section)
      modifies this
      ensures pieces == old(pieces) + MoreLine(actual, shown, section)
    {
      if actual > shown {
        Push(Fixed(More(section, actual - shown)));
      }
    }

    method PushImpacts(impacts: seq<Impact>, redact: string -> bool)
      modifies this
      ensures pieces == old(pieces) + ImpactPieces(impacts, redact)
    {
      ghost var whole := pieces + ImpactPieces(impacts, redact);
      assert impacts[0..] == impacts;
      for i := 0 to |impacts|
        invariant pieces + ImpactPieces(impacts[i..], redact) == whole
      {
        assert impacts[i..][1..] == impacts[i + 1..];
        Push(Fixed(Bullet));
        Push(Inline(Show(impacts[i].value, redact), 100));
        Push(Fixed(Count(impacts[i].count)));
      }
      assert impacts[|impacts|..] == [];
    }

    method RenderImpacts(d: Issue, redact: string -> bool)
      modifies this
      ensures pieces == old(pieces) + Headed(Impacts, ImpactSection(d, redact))
    {
      Push(Fixed(Header(Impacts)));
      if d.impacts == [] {
        Push(Fixed(Note.None(Impacts)));
      } else {
        PushImpacts(Take(d.impacts, MAX_IMPACT_VALUES), redact);
        PushMore(|d.impacts|, MAX_IMPACT_VALUES, Impacts);
      }
    }

    /** One detail of the walk: skipped when repeated, held back when redacted, shown otherwise. */
    method RenderDetail(details: seq<string>, i: nat, redact: string -> bool, seen: seq<string>,
        ghost shown: seq<string>, ghost hidden: nat)
        returns (emitted: bool, sensitive: bool)
      requires i < |details| && |shown| < MAX_DETAILS_PER_FINDING
      requires WalkDetails(details[..i], redact) == Walk(shown, hidden) && seen == Distinct(details[..i])
      modifies this
      ensures Distinct(details[..i + 1]) == (if emitted || sensitive then seen + [details[i]] else seen)
      ensures WalkDetails(details[..i + 1], redact)
              == Walk(if emitted then shown + [details[i]] else shown, if sensitive then hidden + 1 else hidden)
      ensures pieces == old(pieces) + (if emitted then [Fenced(Detail, details[i], 300)] else [])
    {
      OneMoreDetail(details, i, redact, seen, shown, hidden);
      if details[i] in seen {
        return false, false;
      }
      if redact(details[i]) {
        return false, true;
      }
      Push(Fenced(Detail, details[i], 300));
      return true, false;
    }

    /** Walks the details and stops after three shown. */
    method RenderDetails(details: seq<string>, redact: string -> bool) returns (emitted: nat, sensitive: nat)
      modifies this
      ensures var walk := WalkDetails(details, redact);
              && emitted == |walk.shown| && sensitive == walk.hidden
              && pieces == old(pieces) + DetailPieces(walk.shown)
    {
      emitted, sensitive := 0, 0;
      var seen: seq<string> := [];
      ghost var shown: seq<string> := [];
      for i := 0 to |details|
        invariant pieces == old(pieces) + DetailPieces(shown)
        invariant WalkDetails(details[..i], redact) == Walk(shown, sensitive)
        invariant emitted == |shown| < MAX_DETAILS_PER_FINDING
        invariant seen == Distinct(details[..i])
      {
        var isShown, isHidden := RenderDetail(details, i, redact, seen, shown, sensitive);
        if isShown || isHidden {
          seen := seen + [details[i]];
        }
        if isHidden {
          sensitive := sensitive + 1;
        }
        if isShown {
          OneMorePiece(shown, details[i]);
          shown := shown + [details[i]];
          emitted := emitted + 1;
          if emitted >= MAX_DETAILS_PER_FINDING {
            WalkStops(details, redact, i + 1);
            return;
          }
        }
      }
      assert details[..|details|] == details;
    }

    method PushLeftOver(hidden: nat, remaining: int)
      modifies this
      ensures pieces == old(pieces) + LeftOverPieces(hidden, remaining)
    {
      if hidden > 0 {
        Push(Fixed(DetailsOmitted(hidden)));
      }
      if remaining > 0 {
        Push(Fixed(MoreDetails(remaining)));
      }
    }

    method RenderFinding(f: Finding, redact: string -> bool)
      modifies this
      ensures pieces == old(pieces) + FindingPieces(f, redact)
    {
      Push(Heading(Show(f.kind, redact), Show(f.topic, redact), f.count));
      var emitted, sensitive := RenderDetails(f.details, redact);
      PushLeftOver(sensitive, f.detailCount - emitted - sensitive);
    }

    method PushFindings(findings: seq<Finding>, redact: string -> bool)
      modifies this
      ensures pieces == old(pieces) + FindingsPieces(findings, redact)
    {
      ghost var whole := pieces + FindingsPieces(findings, redact);
      assert findings[0..] == findings;
      for i := 0 to |findings|
        invariant pieces + FindingsPieces(findings[i..], redact) == whole
      {
        OneMoreFinding(findings, i, redact);
        Regroup(pieces, FindingPieces(findings[i], redact), FindingsPieces(findings[i + 1..], redact));
        RenderFinding(findings[i], redact);
      }
      assert findings[|findings|..] == [];
    }

    method RenderFindings(d: Issue, redact: string -> bool)
      modifies this
      ensures pieces == old(pieces) + Headed(Findings, FindingSection(d, redact))
    {
      Push(Fixed(Header(Findings)));
      PushFindingSection(d, redact);
    }

    method PushFindingSection(d: Issue, redact: string -> bool)
      modifies this
      ensures pieces == old(pieces) + FindingSection(d, redact)
    {
      if d.findings == [] {
        Push(Fixed(Note.None(Findings)));
      } else {
        PushFindings(Take(d.findings, MAX_FINDING_GROUPS), redact);
        PushMore(|d.findings|, MAX_FINDING_GROUPS, Findings);
      }
    }

    method PushWorkarounds(workarounds: seq<Workaround>, redact: string -> bool)
      modifies this
      ensures pieces == old(pieces) + WorkaroundPieces(workarounds, redact)
    {
      ghost var whole := pieces + WorkaroundPieces(workarounds, redact);
      assert workarounds[0..] == workarounds;
      for i := 0 to |workarounds|
        invariant pieces + WorkaroundPieces(workarounds[i..], redact) == whole
      {
        assert workarounds[i..][1..] == workarounds[i + 1..];
        Push(WorkaroundPiece(workarounds[i], redact));
      }
      assert workarounds[|workarounds|..] == [];
    }

    method RenderWorkarounds(d: Issue, redact: string -> bool)
      modifies this
      ensures pieces == old(pieces) + Headed(Workarounds, WorkaroundSection(d, redact))
    {
      Push(Fixed(Header(Workarounds)));
      if d.workarounds == [] {
        Push(Fixed(Note.None(Workarounds)));
      } else {
        PushWorkarounds(Take(d.workarounds, MAX_WORKAROUNDS), redact);
        PushMore(|d.workarounds|, MAX_WORKAROUNDS, Workarounds);
      }
    }

    method PushValues(values: seq<string>, redact: string -> bool)
      modifies this
      ensures pieces == old(pieces) + CommaSeparated(values, redact)
    {
      ghost var whole := pieces + CommaSeparated(values, redact);
      assert values[0..] == values;
      for i := 0 to |values|
        invariant pieces + CommaSeparated(values[i..], redact) == whole
      {
        assert values[i..][1..] == values[i + 1..];
        Push(Inline(Show(values[i], redact), 100));
        if i + 1 < |values| {
          Push(Fixed(Comma));
        }
      }
      assert values[|values|..] == [];
    }

    method RenderValues(values: seq<string>, redact: string -> bool)
      modifies this
      ensures pieces == old(pieces) + ValuesPieces(values, redact)
    {
      if values == [] {
        Push(Fixed(Unknown));
        return;
      }
      PushValues(Take(values, MAX_WHERE_VALUES), redact);
      if |values| > MAX_WHERE_VALUES {
        Push(Fixed(MoreValues(|values| - MAX_WHERE_VALUES)));
      }
    }

    method RenderLabelled(tag: Note, values: seq<string>, redact: string -> bool)
      modifies this
      ensures pieces == old(pieces) + Labelled(tag, ValuesPieces(values, redact))
    {
      ghost var inner := ValuesPieces(values, redact);
      Around(pieces, [Fixed(tag)], inner, [Fixed(LineEnd)]);
      Push(Fixed(tag));
      RenderValues(values, redact);
      Push(Fixed(LineEnd));
    }

    method RenderPlaces(d: Issue, redact: string -> bool)
      modifies this
      ensures pieces == old(pieces) + Headed(Places, PlaceSection(d, redact))
    {
      Push(Fixed(Header(Places)));
      RenderLabelled(Operations, d.operations, redact);
      RenderLabelled(Surfaces, d.surfaces, redact);
      Push(Fixed(StatusCodes(d.statusCodes)));
    }

    method RenderReports(d: Issue, redact: string -> bool)
      modifies this
      ensures pieces == old(pieces) + ReportPieces(d, redact)
    {
      Push(Inline(Show(d.explanation, redact), 1000));
      Push(Fixed(LineEnd));
      RenderImpacts(d, redact);
      RenderFindings(d, redact);
    }

    method RenderContext(d: Issue, redact: string -> bool)
      modifies this
      ensures pieces == old(pieces) + ContextPieces(d, redact)
    {
      RenderWorkarounds(d, redact);
      RenderPlaces(d, redact);
      Push(Fixed(Header(Period)));
      Push(Fixed(Between(d.earliest, d.latest)));
      Push(Fixed(Header(Volume)));
      Push(Fixed(Reports(d.reportCount)));
    }

    method RenderAll(d: Issue, redact: string -> bool)
      requires pieces == []
      modifies this
      ensures pieces == BodyPieces(d, redact)
    {
      NothingBefore(ReportPieces(d, redact));
      RenderReports(d, redact);
      RenderContext(d, redact);
    }
  }

  method RenderUnder(d: Issue, redact: string -> bool) returns (body: string)
    ensures body == PublishedBody(d, redact)
  {
    var w := new Writer();
    w.RenderAll(d, redact);
    var footer := IssueFooter(d);
    body := CapBody(Rendered(w.pieces) + footer, footer);
  }
}
