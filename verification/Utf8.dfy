/** Byte lengths and byte offsets of texts in UTF-8. */
module Utf8 {
  import opened Basics

  /** The length of a character in UTF-8 (section 3 of RFC 3629). */
  function Width(c: char): nat {
    if c < '\U{80}' then 1 else if c < '\U{800}' then 2 else if c < '\U{10000}' then 3 else 4
  }

  lemma WidthIs(c: char)
    ensures Width(c) == if c as int <= 0x7F then 1 else if c as int <= 0x7FF then 2
                        else if c as int <= 0xFFFF then 3 else 4
  {}

  function ByteLen(s: string): nat {
    if s == "" then 0 else Width(s[0]) + ByteLen(s[1..])
  }

  lemma {:induction false} ByteLenAddsUp(a: string, b: string)
    ensures ByteLen(a + b) == ByteLen(a) + ByteLen(b)
  {
    if a == "" {
      assert a + b == b;
    } else {
      assert (a + b)[1..] == a[1..] + b;
      ByteLenAddsUp(a[1..], b);
    }
  }

  /** How many characters fit whole into the first `limit` bytes. */
  function CharsWithin(s: string, limit: nat): (k: nat)
    ensures k <= |s|
  {
    if s == "" || limit < Width(s[0]) then 0 else 1 + CharsWithin(s[1..], limit - Width(s[0]))
  }

  /** Those characters fit, and one more would not. */
  lemma {:induction false} CharsWithinIsLongest(s: string, limit: nat)
    ensures var k := CharsWithin(s, limit);
            ByteLen(s[..k]) <= limit && (k < |s| ==> limit < ByteLen(s[..k + 1]))
  {
    if s != "" && Width(s[0]) <= limit {
      var k := CharsWithin(s[1..], limit - Width(s[0]));
      CharsWithinIsLongest(s[1..], limit - Width(s[0]));
      assert s[..k + 1][1..] == s[1..][..k];
      if k + 1 < |s| {
        assert s[..k + 2][1..] == s[1..][..k + 1];
      }
    } else if s != "" {
      assert s[..1] == [s[0]] && ByteLen(s[..1]) == Width(s[0]);
    }
  }

  /** The character starting at a byte offset; none when the offset is inside a character. */
  function CharAt(s: string, offset: nat): Option<nat> {
    if offset == 0 then Some(0)
    else if s == "" || offset < Width(s[0]) then None
    else
      var later := CharAt(s[1..], offset - Width(s[0]));
      if later.Some? then Some(later.value + 1) else later
  }

  lemma {:induction false} BoundaryOrStepBack(s: string, offset: nat)
    requires offset <= ByteLen(s)
    ensures CharAt(s, offset).Some? ==> CharAt(s, offset).value == CharsWithin(s, offset)
    ensures CharAt(s, offset).None? ==> offset > 0 && CharsWithin(s, offset) == CharsWithin(s, offset - 1)
  {
    if s != "" && Width(s[0]) <= offset {
      BoundaryOrStepBack(s[1..], offset - Width(s[0]));
    }
  }

  /** Steps back from a byte offset to the character boundary at or before it. */
  method FloorBoundary(s: string, offset: nat) returns (k: nat)
    requires offset <= ByteLen(s)
    ensures k == CharsWithin(s, offset)
  {
    var boundary: nat := offset;
    while CharAt(s, boundary).None?
      invariant boundary <= ByteLen(s)
      invariant CharsWithin(s, boundary) == CharsWithin(s, offset)
      decreases boundary
    {
      BoundaryOrStepBack(s, boundary);
      boundary := boundary - 1;
    }
    BoundaryOrStepBack(s, boundary);
    k := CharAt(s, boundary).value;
  }
}
