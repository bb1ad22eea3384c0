/**
 * The publication secret detector: it reads a text directly, and through percent escapes,
 * base64 segments and JSON strings.
 */
module SecretDetector {
  import opened Basics
  import opened Codecs
  import opened OpaqueText

  datatype Json =
    | Null
    | Bool(flag: bool)
    | Number(digits: Text)
    | String(text: Text)
    | Array(items: seq<Json>)
    | Object(members: seq<(Text, Json)>)

  datatype Engine = Standard | StandardNoPad | UrlSafe | UrlSafeNoPad

  const ENGINES := [Standard, StandardNoPad, UrlSafe, UrlSafeNoPad]

  /** Percent escapes and base64 segments are decoded only above this depth. */
  const DECODE_DEPTH: nat := 2

  const MIN_BASE64 := 16

  /** What the detector asks of the outside: pattern lists, URL reading, entropy, JSON and base64. */
  datatype Detectors = Detectors(
    pattern: Text -> bool,
    token: Text -> bool,
    credentialKey: Text -> bool,
    parse: Text -> Option<Json>,
    decode: (Engine, Text) -> Option<Text>,
    utf8: Text -> bool,
    printable: Text -> bool)
  {
    /**
     * A string inside a JSON text is at least its two quotes shorter than the text; base64
     * carries three bytes in four characters (section 4 of RFC 4648).
     */
    ghost predicate Valid() {
      && (forall v :: parse(v).Some? ==> StringsFit(parse(v).value, |v|))
      && (forall e, v :: decode(e, v).Some? ==> 4 * |decode(e, v).value| <= 3 * |v|)
    }
  }

  /** Every string value leaves at least two of `bound` bytes over. */
  ghost predicate StringsFit(json: Json, bound: nat) {
    match json
    case String(text) => |text| + 2 <= bound
    case Array(items) => forall i | 0 <= i < |items| :: StringsFit(items[i], bound)
    case Object(members) => forall i | 0 <= i < |members| :: StringsFit(members[i].1, bound)
    case _ => true
  }

  // ------------------------------------------------------------------ the detector

  function Unescaped(o: Detectors, value: Text): (decoded: Option<Text>)
    ensures decoded.Some? ==> |decoded.value| < |value|
  {
    DecodingShrinks(value);
    PercentDecodeText(value, o.utf8)
  }

  predicate IsPadding(b: byte) { b == 0x3D }

  function Unpadded(segment: Text): (trimmed: Text)
    ensures |trimmed| <= |segment|
  {
    if segment != [] && IsPadding(segment[|segment| - 1]) then Unpadded(segment[..|segment| - 1]) else segment
  }

  /** The first engine that decodes the text into text. */
  function FirstDecoded(o: Detectors, text: Text, engines: seq<Engine>): (decoded: Option<Text>)
    requires o.Valid()
    ensures decoded.Some? ==> 4 * |decoded.value| <= 3 * |text|
  {
    if engines == [] then None
    else
      var bytes := o.decode(engines[0], text);
      if bytes.Some? && o.utf8(bytes.value) then bytes else FirstDecoded(o, text, engines[1..])
  }

  /** A segment of sixteen characters or more, read as base64 with or without its padding. */
  function Base64Text(o: Detectors, value: Text, segment: Span): (decoded: Option<Text>)
    requires o.Valid() && Within(value, segment)
    ensures decoded.Some? ==> |decoded.value| < |value|
  {
    var text := Slice(value, segment);
    if |text| < MIN_BASE64 then None
    else
      var padded := FirstDecoded(o, text, ENGINES);
      var first := if padded.Some? then padded else FirstDecoded(o, Unpadded(text), ENGINES);
      if first.Some? && first.value != [] && o.printable(first.value) then first else None
  }

  /** The whole detector; JSON strings count against the depth but are not limited by it. */
  ghost predicate TextIsSensitive(o: Detectors, value: Text, depth: nat)
    requires o.Valid()
    decreases |value|, 1
  {
    || o.pattern(value)
    || SecretShape(value, o.token)
    || (var json := o.parse(value);
        json.Some? && JsonIsSensitive(o, json.value, |value|, depth))
    || (depth < DECODE_DEPTH &&
        (var unescaped := Unescaped(o, value);
         unescaped.Some? && TextIsSensitive(o, unescaped.value, depth + 1)))
    || (depth < DECODE_DEPTH &&
        exists s | s in Segments(value) ::
          var decoded := Base64Text(o, value, s);
          decoded.Some? && TextIsSensitive(o, decoded.value, depth + 1))
  }

  ghost predicate JsonIsSensitive(o: Detectors, json: Json, bound: nat, depth: nat)
    requires o.Valid() && StringsFit(json, bound)
    decreases bound, 0, json
  {
    match json
    case String(text) => TextIsSensitive(o, text, depth + 1)
    case Array(items) => exists i | 0 <= i < |items| :: JsonIsSensitive(o, items[i], bound, depth)
    case Object(members) =>
      exists i | 0 <= i < |members| ::
        || (o.credentialKey(members[i].0) && members[i].1 != Null)
        || JsonIsSensitive(o, members[i].1, bound, depth)
    case _ => false
  }

  // ------------------------------------------------------------------ what it means

  ghost predicate HasString(json: Json, text: Text) {
    match json
    case String(t) => t == text
    case Array(items) => exists i | 0 <= i < |items| :: HasString(items[i], text)
    case Object(members) => exists i | 0 <= i < |members| :: HasString(members[i].1, text)
    case _ => false
  }

  /** Some object, however deep, has a non-null member under a credential key. */
  ghost predicate HasCredential(json: Json, credentialKey: Text -> bool) {
    match json
    case Array(items) => exists i | 0 <= i < |items| :: HasCredential(items[i], credentialKey)
    case Object(members) =>
      exists i | 0 <= i < |members| ::
        || (credentialKey(members[i].0) && members[i].1 != Null)
        || HasCredential(members[i].1, credentialKey)
    case _ => false
  }

  /** The text gives itself away without any unwrapping. */
  ghost predicate Exposes(o: Detectors, value: Text) {
    || o.pattern(value)
    || SecretShape(value, o.token)
    || (o.parse(value).Some? && HasCredential(o.parse(value).value, o.credentialKey))
  }

  // ------------------------------------------------------------------ what base64 opens

  /** The text without the `=` at its end. */
  predicate Trimmed(text: Text, trimmed: Text) {
    && trimmed <= text && (trimmed == [] || trimmed[|trimmed| - 1] as char != '=')
    && forall i | |trimmed| <= i < |text| :: text[i] as char == '='
  }

  /** Eight readings are tried: the four engines on the text, and then on it without its `=`. */
  function Reading(o: Detectors, text: Text, trimmed: Text, k: nat): Option<Text>
    requires k < 8
  {
    var candidate := if k < 4 then text else trimmed;
    match k % 4
    case 0 => o.decode(Standard, candidate)
    case 1 => o.decode(StandardNoPad, candidate)
    case 2 => o.decode(UrlSafe, candidate)
    case _ => o.decode(UrlSafeNoPad, candidate)
  }

  predicate IsText(o: Detectors, bytes: Option<Text>) {
    bytes.Some? && o.utf8(bytes.value)
  }

  /** The first reading that is text. */
  predicate FirstReading(o: Detectors, text: Text, trimmed: Text, k: nat, inner: Text) {
    && Trimmed(text, trimmed) && k < 8
    && Reading(o, text, trimmed, k) == Some(inner) && o.utf8(inner)
    && forall j: nat | j < k :: !IsText(o, Reading(o, text, trimmed, j))
  }

  /** A text of sixteen characters or more opens to its first reading, if that is non-empty and printable. */
  ghost predicate Opens(o: Detectors, text: Text, inner: Text) {
    && 16 <= |text| && inner != [] && o.printable(inner)
    && exists trimmed, k: nat :: FirstReading(o, text, trimmed, k, inner)
  }

  lemma {:induction false} UnpaddedIsTrimmed(text: Text)
    ensures Trimmed(text, Unpadded(text))
  {
    if text != [] && IsPadding(text[|text| - 1]) {
      UnpaddedIsTrimmed(text[..|text| - 1]);
    }
  }

  lemma TrimmedIsLongest(text: Text, a: Text, b: Text)
    requires Trimmed(text, a) && Trimmed(text, b)
    ensures |b| <= |a|
  {
    assert |b| > 0 ==> text[|b| - 1] == b[|b| - 1];
  }

  /** Four readings, from the first on. */
  lemma FirstDecodedReads(o: Detectors, text: Text)
    requires o.Valid()
    ensures var a, b, c, d :=
              o.decode(Standard, text), o.decode(StandardNoPad, text), o.decode(UrlSafe, text),
              o.decode(UrlSafeNoPad, text);
            FirstDecoded(o, text, ENGINES)
            == (if IsText(o, a) then a else if IsText(o, b) then b else if IsText(o, c) then c
                else if IsText(o, d) then d else None)
  {
    var three, two, one := [StandardNoPad, UrlSafe, UrlSafeNoPad], [UrlSafe, UrlSafeNoPad], [UrlSafeNoPad];
    assert ENGINES[1..] == three && three[1..] == two && two[1..] == one;
    assert FirstDecoded(o, text, one)
        == if IsText(o, o.decode(UrlSafeNoPad, text)) then o.decode(UrlSafeNoPad, text) else None;
    assert FirstDecoded(o, text, two)
        == if IsText(o, o.decode(UrlSafe, text)) then o.decode(UrlSafe, text) else FirstDecoded(o, text, one);
    assert FirstDecoded(o, text, three)
        == if IsText(o, o.decode(StandardNoPad, text)) then o.decode(StandardNoPad, text)
           else FirstDecoded(o, text, two);
  }

  function FirstOfFour(o: Detectors, text: Text, trimmed: Text, from: nat): Option<Text>
    requires from == 0 || from == 4
  {
    var a, b := Reading(o, text, trimmed, from), Reading(o, text, trimmed, from + 1);
    var c, d := Reading(o, text, trimmed, from + 2), Reading(o, text, trimmed, from + 3);
    if IsText(o, a) then a else if IsText(o, b) then b else if IsText(o, c) then c
    else if IsText(o, d) then d else None
  }

  /** The first of the eight readings that is text is found among the first four, or else the last. */
  lemma FirstOfEight(o: Detectors, text: Text, trimmed: Text, inner: Text)
    requires Trimmed(text, trimmed)
    ensures var first := FirstOfFour(o, text, trimmed, 0);
            (if first.Some? then first else FirstOfFour(o, text, trimmed, 4)) == Some(inner)
            <==> exists k: nat :: FirstReading(o, text, trimmed, k, inner)
  {
    forall k: nat | k < 8 && IsText(o, Reading(o, text, trimmed, k))
        && (forall j: nat | j < k :: !IsText(o, Reading(o, text, trimmed, j)))
      ensures FirstReading(o, text, trimmed, k, Reading(o, text, trimmed, k).value)
    {}
    if !IsText(o, Reading(o, text, trimmed, 0)) && !IsText(o, Reading(o, text, trimmed, 1))
        && !IsText(o, Reading(o, text, trimmed, 2)) && !IsText(o, Reading(o, text, trimmed, 3)) {
      assert forall j: nat | j < 4 :: !IsText(o, Reading(o, text, trimmed, j));
    }
  }

  /** What a segment is decoded to, if it is decoded at all. */
  lemma Base64TextOpens(o: Detectors, value: Text, segment: Span, inner: Text)
    requires o.Valid() && Within(value, segment)
    ensures Base64Text(o, value, segment) == Some(inner) <==> Opens(o, value[segment.start..segment.end], inner)
  {
    var text := value[segment.start..segment.end];
    var trimmed := Unpadded(text);
    UnpaddedIsTrimmed(text);
    FirstDecodedReads(o, text);
    FirstDecodedReads(o, trimmed);
    FirstOfEight(o, text, trimmed, inner);
    forall other, k: nat | FirstReading(o, text, other, k, inner) ensures other == trimmed {
      TrimmedIsLongest(text, other, trimmed);
      TrimmedIsLongest(text, trimmed, other);
    }
  }

  datatype Hop = Percent | Base64(segment: Span) | JsonString

  /** One way from a text to a text hidden in it. */
  ghost predicate Unwraps(o: Detectors, hop: Hop, outer: Text, inner: Text)
    requires o.Valid()
  {
    match hop
    case Percent => HasEscape(outer) && inner == PercentDecoded(outer) && o.utf8(inner)
    case Base64(segment) => IsSegment(outer, segment) && Opens(o, outer[segment.start..segment.end], inner)
    case JsonString => o.parse(outer).Some? && HasString(o.parse(outer).value, inner)
  }

  predicate Allowed(hop: Hop, depth: nat) {
    hop != JsonString ==> depth < 2
  }

  /** Texts each hidden in the one before; decodings happen only at the first depths. */
  ghost predicate Trail(o: Detectors, texts: seq<Text>, hops: seq<Hop>, depth: nat)
    requires o.Valid()
  {
    && |texts| == |hops| + 1
    && (forall i | 0 <= i < |hops| :: Unwraps(o, hops[i], texts[i], texts[i + 1]))
    && (forall i | 0 <= i < |hops| :: Allowed(hops[i], depth + i))
  }

  ghost predicate ExposingTrail(o: Detectors, value: Text, texts: seq<Text>, hops: seq<Hop>, depth: nat)
    requires o.Valid()
  {
    Trail(o, texts, hops, depth) && texts[0] == value && Exposes(o, texts[|hops|])
  }

  lemma {:induction false} HiddenStringFits(json: Json, text: Text, bound: nat)
    requires StringsFit(json, bound) && HasString(json, text)
    ensures |text| + 2 <= bound
  {
    match json
    case Array(items) =>
      var i :| 0 <= i < |items| && HasString(items[i], text);
      HiddenStringFits(items[i], text, bound);
    case Object(members) =>
      var i :| 0 <= i < |members| && HasString(members[i].1, text);
      HiddenStringFits(members[i].1, text, bound);
    case _ =>
  }

  /** Every hop shortens the text: the measure behind termination. */
  lemma HopShortens(o: Detectors, hop: Hop, outer: Text, inner: Text)
    requires o.Valid() && Unwraps(o, hop, outer, inner)
    ensures |inner| < |outer|
  {
    match hop
    case Percent => DecodingShrinks(outer);
    case Base64(segment) => Base64TextOpens(o, outer, segment, inner);
    case JsonString => HiddenStringFits(o.parse(outer).value, inner, |outer|);
  }

  lemma {:induction false} SensitiveJsonShows(o: Detectors, json: Json, bound: nat, depth: nat) returns (text: Text)
    requires o.Valid() && StringsFit(json, bound) && JsonIsSensitive(o, json, bound, depth)
    ensures HasCredential(json, o.credentialKey) || (HasString(json, text) && TextIsSensitive(o, text, depth + 1))
  {
    text := [];
    match json
    case String(t) => text := t;
    case Array(items) =>
      var i :| 0 <= i < |items| && JsonIsSensitive(o, items[i], bound, depth);
      text := SensitiveJsonShows(o, items[i], bound, depth);
    case Object(members) =>
      var i :| 0 <= i < |members|
               && ((o.credentialKey(members[i].0) && members[i].1 != Null)
                   || JsonIsSensitive(o, members[i].1, bound, depth));
      if JsonIsSensitive(o, members[i].1, bound, depth) {
        text := SensitiveJsonShows(o, members[i].1, bound, depth);
      }
    case _ =>
  }

  lemma {:induction false} CredentialIsSensitive(o: Detectors, json: Json, bound: nat, depth: nat)
    requires o.Valid() && StringsFit(json, bound) && HasCredential(json, o.credentialKey)
    ensures JsonIsSensitive(o, json, bound, depth)
  {
    match json
    case Array(items) =>
      var i :| 0 <= i < |items| && HasCredential(items[i], o.credentialKey);
      CredentialIsSensitive(o, items[i], bound, depth);
    case Object(members) =>
      var i :| 0 <= i < |members|
               && ((o.credentialKey(members[i].0) && members[i].1 != Null)
                   || HasCredential(members[i].1, o.credentialKey));
      if HasCredential(members[i].1, o.credentialKey) {
        CredentialIsSensitive(o, members[i].1, bound, depth);
      }
    case _ =>
  }

  lemma {:induction false} HiddenStringIsSensitive(o: Detectors, json: Json, bound: nat, depth: nat, text: Text)
    requires o.Valid() && StringsFit(json, bound) && HasString(json, text) && TextIsSensitive(o, text, depth + 1)
    ensures JsonIsSensitive(o, json, bound, depth)
  {
    match json
    case Array(items) =>
      var i :| 0 <= i < |items| && HasString(items[i], text);
      HiddenStringIsSensitive(o, items[i], bound, depth, text);
    case Object(members) =>
      var i :| 0 <= i < |members| && HasString(members[i].1, text);
      HiddenStringIsSensitive(o, members[i].1, bound, depth, text);
    case _ =>
  }

  /** A JSON value is sensitive for a credential member or for a sensitive string, at any nesting. */
  lemma JsonUnfolds(o: Detectors, json: Json, bound: nat, depth: nat)
    requires o.Valid() && StringsFit(json, bound)
    ensures JsonIsSensitive(o, json, bound, depth)
            <==> HasCredential(json, o.credentialKey)
                 || exists text :: HasString(json, text) && TextIsSensitive(o, text, depth + 1)
  {
    if JsonIsSensitive(o, json, bound, depth) {
      var text := SensitiveJsonShows(o, json, bound, depth);
    } else if HasCredential(json, o.credentialKey) {
      CredentialIsSensitive(o, json, bound, depth);
    } else if text :| HasString(json, text) && TextIsSensitive(o, text, depth + 1) {
      HiddenStringIsSensitive(o, json, bound, depth, text);
    }
  }

  ghost predicate Unwrappable(o: Detectors, value: Text, depth: nat, hop: Hop, inner: Text)
    requires o.Valid()
  {
    Unwraps(o, hop, value, inner) && Allowed(hop, depth) && TextIsSensitive(o, inner, depth + 1)
  }

  lemma SensitiveShows(o: Detectors, value: Text, depth: nat)
    requires o.Valid() && TextIsSensitive(o, value, depth) && !Exposes(o, value)
    ensures exists hop, inner :: Unwrappable(o, value, depth, hop, inner)
  {
    var json, unescaped := o.parse(value), Unescaped(o, value);
    if json.Some? && JsonIsSensitive(o, json.value, |value|, depth) {
      var text := SensitiveJsonShows(o, json.value, |value|, depth);
      assert Unwrappable(o, value, depth, JsonString, text);
    } else if unescaped.Some? && TextIsSensitive(o, unescaped.value, depth + 1) {
      assert Unwrappable(o, value, depth, Percent, unescaped.value);
    } else {
      SegmentsAreTheRuns(value);
      var s :| s in Segments(value) && Base64Text(o, value, s).Some?
               && TextIsSensitive(o, Base64Text(o, value, s).value, depth + 1);
      var inner := Base64Text(o, value, s).value;
      Base64TextOpens(o, value, s, inner);
      assert Unwrappable(o, value, depth, Base64(s), inner);
    }
  }

  lemma HopIsSensitive(o: Detectors, value: Text, depth: nat, hop: Hop, inner: Text)
    requires o.Valid() && Unwrappable(o, value, depth, hop, inner)
    ensures TextIsSensitive(o, value, depth)
  {
    match hop
    case Percent =>
    case Base64(segment) =>
      SegmentsAreTheRuns(value);
      Base64TextOpens(o, value, segment, inner);
      assert segment in Segments(value);
    case JsonString =>
      HiddenStringIsSensitive(o, o.parse(value).value, |value|, depth, inner);
  }

  lemma ExposingIsSensitive(o: Detectors, value: Text, depth: nat)
    requires o.Valid() && Exposes(o, value)
    ensures TextIsSensitive(o, value, depth)
  {
    var json := o.parse(value);
    if json.Some? && HasCredential(json.value, o.credentialKey) {
      CredentialIsSensitive(o, json.value, |value|, depth);
    }
  }

  lemma TrailGrows(o: Detectors, hop: Hop, value: Text, inner: Text, texts: seq<Text>, hops: seq<Hop>, depth: nat)
    requires o.Valid() && Unwraps(o, hop, value, inner) && Allowed(hop, depth)
    requires ExposingTrail(o, inner, texts, hops, depth + 1)
    ensures ExposingTrail(o, value, [value] + texts, [hop] + hops, depth)
  {
    var all := [hop] + hops;
    assert forall i | 1 <= i < |all| :: all[i] == hops[i - 1] && Allowed(all[i], depth + 1 + (i - 1));
  }

  lemma {:induction false} SensitiveHasTrail(o: Detectors, value: Text, depth: nat)
      returns (texts: seq<Text>, hops: seq<Hop>)
    requires o.Valid() && TextIsSensitive(o, value, depth)
    ensures ExposingTrail(o, value, texts, hops, depth)
    decreases |value|
  {
    if Exposes(o, value) {
      texts, hops := [value], [];
    } else {
      SensitiveShows(o, value, depth);
      var hop, inner :| Unwrappable(o, value, depth, hop, inner);
      HopShortens(o, hop, value, inner);
      texts, hops := SensitiveHasTrail(o, inner, depth + 1);
      TrailGrows(o, hop, value, inner, texts, hops, depth);
      texts, hops := [value] + texts, [hop] + hops;
    }
  }

  lemma {:induction false} TrailMakesSensitive(o: Detectors, value: Text, texts: seq<Text>, hops: seq<Hop>, depth: nat)
    requires o.Valid() && ExposingTrail(o, value, texts, hops, depth)
    ensures TextIsSensitive(o, value, depth)
    decreases |hops|
  {
    if hops == [] {
      ExposingIsSensitive(o, value, depth);
    } else {
      assert forall i | 0 <= i < |hops| - 1 :: Allowed(hops[1..][i], depth + 1 + i);
      TrailMakesSensitive(o, texts[1], texts[1..], hops[1..], depth + 1);
      assert Allowed(hops[0], depth + 0);
      HopIsSensitive(o, value, depth, hops[0], texts[1]);
    }
  }

  /** The verdict, for every text and depth: some allowed trail of hops ends in an exposing text. */
  lemma SensitiveIffExposingTrail(o: Detectors, value: Text, depth: nat)
    requires o.Valid()
    ensures TextIsSensitive(o, value, depth) <==> exists texts, hops :: ExposingTrail(o, value, texts, hops, depth)
  {
    if TextIsSensitive(o, value, depth) {
      var texts, hops := SensitiveHasTrail(o, value, depth);
    }
    if texts, hops :| ExposingTrail(o, value, texts, hops, depth) {
      TrailMakesSensitive(o, value, texts, hops, depth);
    }
  }

  function Decodings(hops: seq<Hop>): nat {
    if hops == [] then 0 else (if hops[0] != JsonString then 1 else 0) + Decodings(hops[1..])
  }

  /** No trail decodes more often than the depth still allows, nor is it longer than its text. */
  lemma {:induction false} TrailsAreShort(o: Detectors, texts: seq<Text>, hops: seq<Hop>, depth: nat)
    requires o.Valid() && Trail(o, texts, hops, depth)
    ensures Decodings(hops) <= (if depth < 2 then 2 - depth else 0)
    ensures |hops| + |texts[|hops|]| <= |texts[0]|
    decreases |hops|
  {
    if hops != [] {
      FirstHop(o, texts, hops, depth);
      TrailsAreShort(o, texts[1..], hops[1..], depth + 1);
    }
  }

  /** A trail is an allowed hop that shortens the text, and a trail from there. */
  lemma FirstHop(o: Detectors, texts: seq<Text>, hops: seq<Hop>, depth: nat)
    requires o.Valid() && Trail(o, texts, hops, depth) && hops != []
    ensures Allowed(hops[0], depth) && |texts[1]| < |texts[0]|
    ensures Trail(o, texts[1..], hops[1..], depth + 1)
  {
    assert Unwraps(o, hops[0], texts[0], texts[1]) && Allowed(hops[0], depth + 0);
    HopShortens(o, hops[0], texts[0], texts[1]);
    forall i | 0 <= i < |hops| - 1
      ensures Unwraps(o, hops[1..][i], texts[1..][i], texts[1..][i + 1]) && Allowed(hops[1..][i], depth + 1 + i)
    {
      assert Unwraps(o, hops[i + 1], texts[i + 1], texts[i + 2]) && Allowed(hops[i + 1], depth + (i + 1));
    }
  }

  /** What is sensitive at a greater depth is sensitive at every smaller one. */
  lemma SensitiveAtSmallerDepth(o: Detectors, value: Text, depth: nat, smaller: nat)
    requires o.Valid() && TextIsSensitive(o, value, depth) && smaller <= depth
    ensures TextIsSensitive(o, value, smaller)
  {
    var texts, hops := SensitiveHasTrail(o, value, depth);
    assert forall i | 0 <= i < |hops| :: Allowed(hops[i], depth + i) ==> Allowed(hops[i], smaller + i);
    TrailMakesSensitive(o, value, texts, hops, smaller);
  }

  /** From depth 2 on only JSON strings are opened. */
  lemma DeepTrailsOnlyOpenJson(o: Detectors, texts: seq<Text>, hops: seq<Hop>, depth: nat)
    requires o.Valid() && Trail(o, texts, hops, depth)
    ensures forall i | 0 <= i < |hops| && 2 <= depth + i :: hops[i] == JsonString
  {
    forall i | 0 <= i < |hops| && 2 <= depth + i ensures hops[i] == JsonString {
      assert Allowed(hops[i], depth + i);
    }
  }

  /** A text that a long enough segment opens to is found in any text around the segment. */
  lemma Base64HidesNothing(o: Detectors, value: Text, segment: Span, inner: Text, depth: nat)
    requires o.Valid() && depth < 2 && IsSegment(value, segment)
    requires Opens(o, value[segment.start..segment.end], inner) && TextIsSensitive(o, inner, depth + 1)
    ensures TextIsSensitive(o, value, depth)
  {
    HopIsSensitive(o, value, depth, Base64(segment), inner);
  }

  /** Percent-encoding a sensitive text, when it changes anything, uses up exactly one depth. */
  lemma EncodingHidesNothing(o: Detectors, value: Text, depth: nat)
    requires o.Valid() && o.utf8(value) && depth < 2
    requires TextIsSensitive(o, value, depth + 1)
    ensures TextIsSensitive(o, PercentEncoded(value), depth)
  {
    PercentRoundTrip(value, o.utf8);
    if PercentEncoded(value) == value {
      SensitiveAtSmallerDepth(o, value, depth + 1, depth);
    } else {
      HopIsSensitive(o, PercentEncoded(value), depth, Percent, value);
    }
  }

  /** An exposing text is still found after up to two percent-encodings. */
  lemma TwoEncodingsHideNothing(o: Detectors, value: Text)
    requires o.Valid() && o.utf8(value) && o.utf8(PercentEncoded(value))
    requires Exposes(o, value)
    ensures TextIsSensitive(o, PercentEncoded(value), 0)
    ensures TextIsSensitive(o, PercentEncoded(PercentEncoded(value)), 0)
  {
    ExposingIsSensitive(o, value, 2);
    EncodingHidesNothing(o, value, 1);
    EncodingHidesNothing(o, PercentEncoded(value), 0);
    SensitiveAtSmallerDepth(o, PercentEncoded(value), 1, 0);
  }
}
