/** What of an issue is scanned before publication, and which customer values must not be shown. */
module IssueRedaction {
  import opened Basics
  import opened Codecs

  datatype Impact = Impact(value: string, count: int)

  datatype Finding = Finding(kind: string, topic: string, count: int, detailCount: int, details: seq<string>)

  datatype Workaround = Workaround(used: bool, detail: Option<string>)

  datatype Moment = Moment(year: nat, month: nat, day: nat, hour: nat, minute: nat, second: nat)

  datatype Issue = Issue(
    groupKey: Text,
    explanation: string,
    primaryKind: string,
    primaryTopic: string,
    primaryOperation: string,
    impacts: seq<Impact>,
    findings: seq<Finding>,
    workarounds: seq<Workaround>,
    operations: seq<string>,
    surfaces: seq<string>,
    statusCodes: seq<int>,
    earliest: Option<Moment>,
    latest: Option<Moment>,
    reportCount: int,
    backlink: string)

  const MAX_IMPACT_VALUES := 20
  const MAX_FINDING_GROUPS := 25
  const MAX_DETAILS_PER_FINDING := 3
  const MAX_WORKAROUNDS := 20
  const MAX_WHERE_VALUES := 20
  const MAX_ADJACENT_FIELDS := 4

  function Take<T>(values: seq<T>, limit: nat): (taken: seq<T>)
    ensures taken <= values && |taken| <= limit
  {
    if |values| <= limit then values else values[..limit]
  }

  // ------------------------------------------------------------------ scanned fields

  function ImpactValues(impacts: seq<Impact>): seq<string> {
    if impacts == [] then [] else [impacts[0].value] + ImpactValues(impacts[1..])
  }

  function FindingFields(findings: seq<Finding>): seq<string> {
    if findings == [] then []
    else [findings[0].kind, findings[0].topic] + findings[0].details + FindingFields(findings[1..])
  }

  function FindingDetails(findings: seq<Finding>): seq<string> {
    if findings == [] then [] else findings[0].details + FindingDetails(findings[1..])
  }

  function WorkaroundDetails(workarounds: seq<Workaround>): seq<string> {
    if workarounds == [] then []
    else
      (if workarounds[0].detail.Some? then [workarounds[0].detail.value] else [])
      + WorkaroundDetails(workarounds[1..])
  }

  /** Every field the title or the body may show, in order; details are not capped. */
  function ScannedFields(d: Issue): seq<string> {
    [d.primaryKind, d.primaryTopic, d.primaryOperation, d.explanation]
    + ImpactValues(Take(d.impacts, MAX_IMPACT_VALUES))
    + FindingFields(Take(d.findings, MAX_FINDING_GROUPS))
    + WorkaroundDetails(Take(d.workarounds, MAX_WORKAROUNDS))
    + Take(d.operations, MAX_WHERE_VALUES)
    + Take(d.surfaces, MAX_WHERE_VALUES)
  }

  function ScannedDetails(d: Issue): seq<string> {
    FindingDetails(Take(d.findings, MAX_FINDING_GROUPS))
  }

  lemma {:induction false} ImpactIsScanned(impacts: seq<Impact>, i: nat)
    requires i < |impacts|
    ensures impacts[i].value in ImpactValues(impacts)
  {
    if i > 0 {
      ImpactIsScanned(impacts[1..], i - 1);
    }
  }

  lemma {:induction false} FindingIsScanned(findings: seq<Finding>, i: nat)
    requires i < |findings|
    ensures findings[i].kind in FindingFields(findings) && findings[i].topic in FindingFields(findings)
    ensures forall v | v in findings[i].details :: v in FindingFields(findings) && v in FindingDetails(findings)
  {
    if i > 0 {
      FindingIsScanned(findings[1..], i - 1);
    } else {
      var fields := [findings[0].kind, findings[0].topic];
      assert fields[0] in fields && fields[1] in fields;
    }
  }

  // ------------------------------------------------------------------ adjacent windows

  function Concat(fields: seq<string>): string {
    if fields == [] then "" else fields[0] + Concat(fields[1..])
  }

  /** A non-empty field made only of credential characters. */
  predicate IsFragment(value: string) {
    && value != ""
    && (forall c | c in value ::
          || '0' <= c <= '9'
          || 'a' <= c <= 'z'
          || 'A' <= c <= 'Z'
          || c in {'-', '.', '_', '~', '+', '/', '='})
  }

  predicate AllFragments(fields: seq<string>) {
    forall v | v in fields :: IsFragment(v)
  }

  /** Two to four neighbouring fragments whose concatenation gives a credential away. */
  predicate SensitiveWindow(fields: seq<string>, sensitive: string -> bool, start: nat, size: nat) {
    && 2 <= size <= 4
    && start + size <= |fields|
    && AllFragments(fields[start..start + size])
    && sensitive(Concat(fields[start..start + size]))
  }

  predicate MemberAt(fields: seq<string>, sensitive: string -> bool, start: nat, size: nat, value: string) {
    SensitiveWindow(fields, sensitive, start, size) && value in fields[start..start + size]
  }

  ghost predicate InSensitiveWindow(fields: seq<string>, sensitive: string -> bool, value: string) {
    exists start: nat, size: nat :: MemberAt(fields, sensitive, start, size, value)
  }

  method MarkSensitiveAdjacentWindows(redactions: set<string>, fields: seq<string>, sensitive: string -> bool)
    returns (marked: set<string>)
    ensures forall v :: v in marked <==> v in redactions || InSensitiveWindow(fields, sensitive, v)
  {
    marked := redactions;
    var largest := if |fields| < MAX_ADJACENT_FIELDS then |fields| else MAX_ADJACENT_FIELDS;
    var size := 2;
    while size <= largest
      invariant 2 <= size
      invariant forall v | v in marked :: v in redactions || InSensitiveWindow(fields, sensitive, v)
      invariant forall v | v in redactions :: v in marked
      invariant forall v, start: nat, n: nat | n < size && MemberAt(fields, sensitive, start, n, v) :: v in marked
    {
      for start := 0 to |fields| - size + 1
        invariant forall v | v in marked :: v in redactions || InSensitiveWindow(fields, sensitive, v)
        invariant forall v | v in redactions :: v in marked
        invariant forall v, s: nat, n: nat | (n < size || (n == size && s < start))
                  && MemberAt(fields, sensitive, s, n, v) ::
                    v in marked
      {
        var window := fields[start..start + size];
        if AllFragments(window) && sensitive(Concat(window)) {
          assert SensitiveWindow(fields, sensitive, start, size);
          assert forall v | v in window :: MemberAt(fields, sensitive, start, size, v);
          marked := marked + set v | v in window;
        }
      }
      size := size + 1;
    }
  }

  /** The values that must not be shown: sensitive alone, or part of a sensitive window. */
  ghost predicate MustRedact(d: Issue, sensitive: string -> bool, value: string) {
    || sensitive(value)
    || InSensitiveWindow(ScannedFields(d), sensitive, value)
    || InSensitiveWindow(ScannedDetails(d), sensitive, value)
  }

  method RedactionsForIssue(d: Issue, sensitive: string -> bool) returns (redactions: set<string>)
    ensures forall v :: v in redactions || sensitive(v) <==> MustRedact(d, sensitive, v)
  {
    var marked := MarkSensitiveAdjacentWindows({}, ScannedFields(d), sensitive);
    redactions := MarkSensitiveAdjacentWindows(marked, ScannedDetails(d), sensitive);
  }
}
