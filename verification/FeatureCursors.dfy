/** A way to write cursors that meets all that is asked of one, with plain numbers for times. */
module FeatureCursors {
  import opened Basics
  import opened FeaturePages

  const WIDTH := 19

  function Pow10(n: nat): nat {
    if n == 0 then 1 else 10 * Pow10(n - 1)
  }

  /** The last `width` decimal digits of a number. */
  function Digits(n: nat, width: nat): (s: string)
    ensures |s| == width
  {
    if width == 0 then "" else Digits(n / 10, width - 1) + ['0' + (n % 10) as char]
  }

  function DigitValue(c: char): nat {
    if '0' <= c <= '9' then (c - '0') as nat else 0
  }

  function Number(s: string): nat {
    if s == "" then 0 else 10 * Number(s[..|s| - 1]) + DigitValue(s[|s| - 1])
  }

  lemma {:induction false} NumberOfDigits(n: nat, width: nat)
    requires n < Pow10(width)
    ensures Number(Digits(n, width)) == n
  {
    if width > 0 {
      NumberOfDigits(n / 10, width - 1);
      var s := Digits(n, width);
      assert s[..|s| - 1] == Digits(n / 10, width - 1);
    }
  }

  lemma WidthIsEnough()
    ensures MAX_TIME - MIN_TIME <= Pow10(WIDTH)
  {
    assert Pow10(2) == 100 && Pow10(4) == 10_000;
    assert Pow10(6) == 1_000_000 && Pow10(8) == 100_000_000;
    assert Pow10(10) == 10_000_000_000 && Pow10(12) == 1_000_000_000_000;
    assert Pow10(14) == 100_000_000_000_000 && Pow10(16) == 10_000_000_000_000_000;
    assert Pow10(18) == 1_000_000_000_000_000_000;
  }

  function Stamp(at: int): (s: string)
    ensures |s| == WIDTH
  {
    Digits(if at < MIN_TIME then 0 else at - MIN_TIME, WIDTH)
  }

  function Filler(n: nat): (s: string)
    ensures |s| == n
  {
    if n == 0 then "" else "-" + Filler(n - 1)
  }

  /** As long as base64 would make it. */
  function Lengthened(s: string): (t: string)
    ensures |t| == (4 * |s| + 2) / 3 && 3 * |t| / 4 == |s|
    ensures s <= t
  {
    s + Filler((4 * |s| + 2) / 3 - |s|)
  }

  const OPENS := |JSON_OPENS|
  const GOES_ON := OPENS + WIDTH + |JSON_GOES_ON|

  function Read(text: string): Option<Cursor> {
    var size := 3 * |text| / 4;
    if size < GOES_ON + |JSON_ENDS| then None
    else Some(Cursor(MIN_TIME + Number(text[OPENS..OPENS + WIDTH]), text[GOES_ON..size - |JSON_ENDS|]))
  }

  function PlainCodec(): Codec {
    Codec((at: int) => Stamp(at), (s: string) => Lengthened(s), (text: string) => Read(text))
  }

  /** What is written before, between and after time and key has fixed places. */
  lemma PartsOf(a: string, stamp: string, b: string, key: string, e: string, text: string)
    requires a + stamp + b + key + e <= text
    ensures |a + stamp + b + key + e| == |a| + |stamp| + |b| + |key| + |e|
    ensures text[|a|..|a| + |stamp|] == stamp
    ensures text[|a| + |stamp| + |b|..|a| + |stamp| + |b| + |key|] == key
  {
    var whole := a + stamp + b + key + e;
    assert text == whole + text[|whole|..];
  }

  lemma TimeIsRead(at: int)
    requires MIN_TIME <= at < MAX_TIME
    ensures MIN_TIME + Number(Stamp(at)) == at
  {
    WidthIsEnough();
    NumberOfDigits(at - MIN_TIME, WIDTH);
  }

  lemma ReadsBack(f: Feature, json: string)
    requires StoredFeature(f) && json == JSON_OPENS + Stamp(f.last) + JSON_GOES_ON + f.key + JSON_ENDS
    ensures Read(Lengthened(json)) == Some(PlaceOf(f))
  {
    PartsOf(JSON_OPENS, Stamp(f.last), JSON_GOES_ON, f.key, JSON_ENDS, Lengthened(json));
    TimeIsRead(f.last);
  }

  /** So the assumptions about cursors can be met. */
  lemma SomeCodecIsValid()
    ensures PlainCodec().Valid()
  {
    forall f | StoredFeature(f)
      ensures |PlainCodec().stamp(f.last)| <= MAX_STAMP
      ensures |PlainCodec().Encode(f)| == (4 * |PlainCodec().Json(f)| + 2) / 3
      ensures PlainCodec().decode(PlainCodec().Encode(f)) == Some(PlaceOf(f))
    {
      ReadsBack(f, PlainCodec().Json(f));
    }
  }
}
