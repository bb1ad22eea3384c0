/** Keyset pagination over the features of a product. */
module FeaturePages {
  import opened Basics
  import opened StringOrders

  datatype Feature = Feature(key: string, last: int)

  datatype Cursor = Cursor(last: int, key: string)

  datatype Error = BadRequest

  datatype Page = Page(features: seq<Feature>, next: Option<string>)

  /** The keys the database accepts: a letter or digit, then at most 63 letters, digits, `_` or `-`. */
  predicate StoredKey(key: string) {
    && 1 <= |key| <= MAX_KEY
    && IsKeyStart(key[0])
    && forall c | c in key :: IsKeyStart(c) || c == '_' || c == '-'
  }

  predicate IsKeyStart(c: char) {
    'a' <= c <= 'z' || '0' <= c <= '9'
  }

  /**
   * A key the database accepts, and a time, in microseconds, that it stores and the program can
   * hold: from 4714 BC on, and before the year 262143.
   */
  predicate StoredFeature(f: Feature) {
    StoredKey(f.key) && MIN_TIME <= f.last < MAX_TIME
  }

  /**
   * How a cursor is written: the base64 text of a JSON object. What a time looks like, base64
   * and reading it all back are not part of this model.
   */
  datatype Codec = Codec(stamp: int -> string, base64: string -> string, decode: string -> Option<Cursor>)
  {
    function Json(f: Feature): string {
      JSON_OPENS + stamp(f.last) + JSON_GOES_ON + f.key + JSON_ENDS
    }

    function Encode(f: Feature): string {
      base64(Json(f))
    }

    /**
     * A stored time takes at most 40 characters, unpadded base64 writes three bytes as four
     * characters (section 3.2 of RFC 4648), and what is written for a stored feature is read back.
     */
    ghost predicate Valid() {
      forall f: Feature | StoredFeature(f) ::
        && |stamp(f.last)| <= MAX_STAMP
        && |Encode(f)| == (4 * |Json(f)| + 2) / 3
        && decode(Encode(f)) == Some(PlaceOf(f))
    }
  }

  const JSON_OPENS := "{\"last_observed_at\":\""
  const JSON_GOES_ON := "\",\"key\":\""
  const JSON_ENDS := "\"}"

  const MIN_TIME := -210_866_803_200_000_000
  const MAX_TIME := 8_210_266_876_800_000_000
  const MAX_KEY := 64
  const MAX_STAMP := 40
  const MAX_CURSOR := 500
  const DEFAULT_LIMIT := 50
  const MAX_LIMIT := 100

  /** Row comparison by (last observed, key). */
  predicate Below(f: Feature, c: Cursor) {
    f.last < c.last || (f.last == c.last && StringLess(f.key, c.key))
  }

  function PlaceOf(f: Feature): Cursor {
    Cursor(f.last, f.key)
  }

  /** Newest first, then the larger key; keys are unique, so the order is strict. */
  predicate Descending(rows: seq<Feature>) {
    forall i, j | 0 <= i < j < |rows| :: Below(rows[j], PlaceOf(rows[i]))
  }

  function BelowCursor(rows: seq<Feature>, cursor: Option<Cursor>): seq<Feature> {
    if rows == [] then []
    else
      (if cursor.None? || Below(rows[0], cursor.value) then [rows[0]] else []) + BelowCursor(rows[1..], cursor)
  }

  function Take(rows: seq<Feature>, n: nat): seq<Feature> {
    if |rows| <= n then rows else rows[..n]
  }

  function DecodeCursor(codec: Codec, text: Option<string>): Result<Option<Cursor>, Error> {
    match text
    case None => Ok(None)
    case Some(t) =>
      if |t| > MAX_CURSOR then Err(BadRequest)
      else
        match codec.decode(t)
        case None => Err(BadRequest)
        case Some(c) => Ok(Some(c))
  }

  /** The rows a query returns: those below the cursor, in order, up to the limit. */
  function FeatureRows(rows: seq<Feature>, codec: Codec, cursor: Option<string>, limit: nat)
      : Result<seq<Feature>, Error> {
    match DecodeCursor(codec, cursor)
    case Err(e) => Err(e)
    case Ok(c) => Ok(Take(BelowCursor(rows, c), limit))
  }

  function ClampLimit(limit: Option<int>): (n: nat)
    ensures 1 <= n <= MAX_LIMIT
  {
    var asked := if limit.Some? then limit.value else DEFAULT_LIMIT;
    if asked < 1 then 1 else if asked > MAX_LIMIT then MAX_LIMIT else asked
  }

  /** Fifty features to a page unless asked otherwise, at least one and at most a hundred. */
  lemma LimitIs(limit: Option<int>)
    ensures var n := ClampLimit(limit);
            match limit
            case None => n == 50
            case Some(asked) => n == (if asked < 1 then 1 else if 100 < asked then 100 else asked)
  {}

  /** What a page is: the next rows, and a cursor to the last of them if there are more. */
  function FeaturesPage(rows: seq<Feature>, codec: Codec, limit: nat, cursor: Option<string>): Result<Page, Error>
    requires 1 <= limit
  {
    match DecodeCursor(codec, cursor)
    case Err(e) => Err(e)
    case Ok(c) =>
      var left := BelowCursor(rows, c);
      if |left| <= limit then Ok(Page(left, None))
      else Ok(Page(left[..limit], Some(codec.Encode(left[limit - 1]))))
  }

  /** One row more than asked for tells whether there is another page. */
  method DashboardFeaturesPage(rows: seq<Feature>, codec: Codec, asked: Option<int>, cursor: Option<string>)
      returns (page: Result<Page, Error>)
    ensures page == FeaturesPage(rows, codec, ClampLimit(asked), cursor)
  {
    var limit := ClampLimit(asked);
    var fetched := FeatureRows(rows, codec, cursor, limit + 1);
    match fetched
    case Err(e) => return Err(e);
    case Ok(features) =>
      var next: Option<string> := None;
      ghost var left := BelowCursor(rows, DecodeCursor(codec, cursor).value);
      if |features| > limit {
        assert features[..limit] == left[..limit] && features[limit - 1] == left[limit - 1];
        next := Some(codec.Encode(features[limit - 1]));
        features := features[..limit];
      }
      return Ok(Page(features, next));
  }

  /** The rows below a cursor, in their order: older ones, and of one time those with a smaller key. */
  lemma {:induction false} BelowAre(rows: seq<Feature>, c: Cursor)
    requires Descending(rows)
    ensures Descending(BelowCursor(rows, Some(c)))
    ensures forall f :: f in BelowCursor(rows, Some(c)) <==>
              f in rows && (f.last < c.last || (f.last == c.last && StringLess(f.key, c.key)))
  {
    if rows != [] {
      var rest := BelowCursor(rows[1..], Some(c));
      assert forall i | 0 <= i < |rows| - 1 :: rows[1..][i] == rows[i + 1];
      BelowAre(rows[1..], c);
      forall j | 0 <= j < |rest| ensures Below(rest[j], PlaceOf(rows[0])) {
        assert rest[j] in rest;
      }
    }
  }

  predicate BadCursor(codec: Codec, cursor: Option<string>) {
    cursor.Some? && (500 < |cursor.value| || codec.decode(cursor.value).None?)
  }

  /** What is left to show behind a readable cursor. */
  function Behind(rows: seq<Feature>, codec: Codec, cursor: Option<string>): seq<Feature>
    requires !BadCursor(codec, cursor)
  {
    if cursor.None? then rows else BelowCursor(rows, codec.decode(cursor.value))
  }

  lemma BehindIs(rows: seq<Feature>, codec: Codec, cursor: Option<string>)
    ensures DecodeCursor(codec, cursor).Err? <==> BadCursor(codec, cursor)
    ensures !BadCursor(codec, cursor) ==>
              BelowCursor(rows, DecodeCursor(codec, cursor).value) == Behind(rows, codec, cursor)
  {
    AllWithoutCursor(rows);
  }

  /** For every cursor: an unreadable one is refused; else the page is the first rows below it. */
  lemma PageIs(rows: seq<Feature>, codec: Codec, limit: nat, cursor: Option<string>)
    requires 1 <= limit
    ensures var page := FeaturesPage(rows, codec, limit, cursor);
            if BadCursor(codec, cursor) then page == Err(BadRequest)
            else
              var left := Behind(rows, codec, cursor);
              if |left| <= limit then page == Ok(Page(left, None))
              else page == Ok(Page(left[..limit], Some(codec.Encode(left[limit - 1]))))
  {
    BehindIs(rows, codec, cursor);
  }

  // ------------------------------------------------------------------ following the cursors

  /** How a reader gets a page for a cursor. */
  type Reader = Option<string> -> Result<Page, Error>

  function ReaderOf(rows: seq<Feature>, codec: Codec, asked: Option<int>): Reader {
    (cursor: Option<string>) => FeaturesPage(rows, codec, ClampLimit(asked), cursor)
  }

  /** Pages got one after another, each with the cursor of the one before, until there is none. */
  predicate Followed(read: Reader, cursor: Option<string>, pages: seq<Page>)
    decreases pages
  {
    && pages != []
    && read(cursor) == Ok(pages[0])
    && (if |pages| == 1 then pages[0].next == None
        else pages[0].next.Some? && Followed(read, pages[0].next, pages[1..]))
  }

  function AllFeatures(pages: seq<Page>): seq<Feature> {
    if pages == [] then [] else pages[0].features + AllFeatures(pages[1..])
  }

  /** Every page but the last has exactly as many features as asked for; the last has no more. */
  predicate FullButLast(pages: seq<Page>, limit: nat) {
    forall i | 0 <= i < |pages| ::
      if i + 1 < |pages| then |pages[i].features| == limit else |pages[i].features| <= limit
  }

  lemma {:induction false} NothingAbove(rows: seq<Feature>, k: nat, c: Cursor)
    requires Descending(rows) && k <= |rows|
    requires forall i | 0 <= i < |rows| :: Below(rows[i], c) <==> k <= i
    ensures BelowCursor(rows, Some(c)) == rows[k..]
    decreases |rows|
  {
    if rows != [] {
      if k == 0 {
        assert forall i | 0 <= i < |rows| - 1 :: rows[1..][i] == rows[i + 1];
        NothingAbove(rows[1..], 0, c);
        assert rows[0..] == [rows[0]] + rows[1..];
      } else {
        assert forall i | 0 <= i < |rows| - 1 :: rows[1..][i] == rows[i + 1];
        NothingAbove(rows[1..], k - 1, c);
      }
    }
  }

  lemma {:induction false} AllWithoutCursor(rows: seq<Feature>)
    ensures BelowCursor(rows, None) == rows
  {
    if rows != [] {
      AllWithoutCursor(rows[1..]);
    }
  }

  /** The cursor of a row selects exactly the rows after it. */
  lemma CursorSelectsTheRest(rows: seq<Feature>, k: nat)
    requires Descending(rows) && k < |rows|
    ensures BelowCursor(rows, Some(PlaceOf(rows[k]))) == rows[k + 1..]
  {
    var c := PlaceOf(rows[k]);
    forall i | 0 <= i < |rows| ensures Below(rows[i], c) <==> k + 1 <= i {
      if i < k {
        assert Below(rows[k], PlaceOf(rows[i]));
        StringOrder(rows[i].key, rows[k].key);
      } else if i == k {
        StringOrder(rows[k].key, rows[k].key);
      }
    }
    NothingAbove(rows, k + 1, c);
  }

  predicate Stored(rows: seq<Feature>) {
    forall f | f in rows :: StoredFeature(f)
  }

  /** The cursor of a stored feature is always short enough to be accepted back. */
  lemma StoredCursorsAreShort(f: Feature, codec: Codec)
    requires codec.Valid() && StoredFeature(f)
    ensures |codec.Encode(f)| <= MAX_CURSOR
  {
    assert |codec.Json(f)| <= 40 + MAX_STAMP + MAX_KEY;
  }

  /** The cursor with which the rows from position k on are asked for. */
  function CursorAt(rows: seq<Feature>, codec: Codec, k: nat): Option<string>
    requires k <= |rows|
  {
    if k == 0 then None else Some(codec.Encode(rows[k - 1]))
  }

  /** The page that starts at position k. */
  function PageFrom(rows: seq<Feature>, codec: Codec, limit: nat, k: nat): Page
    requires k <= |rows|
  {
    if |rows| <= k + limit then Page(rows[k..], None)
    else Page(rows[k..k + limit], CursorAt(rows, codec, k + limit))
  }

  lemma CursorDecodes(rows: seq<Feature>, codec: Codec, k: nat)
    requires codec.Valid() && Stored(rows) && 0 < k <= |rows|
    ensures DecodeCursor(codec, CursorAt(rows, codec, k)) == Ok(Some(PlaceOf(rows[k - 1])))
  {
    assert rows[k - 1] in rows;
    StoredCursorsAreShort(rows[k - 1], codec);
  }

  lemma RowsBelowCursor(rows: seq<Feature>, codec: Codec, k: nat)
    requires Descending(rows) && codec.Valid() && Stored(rows) && k <= |rows|
    ensures DecodeCursor(codec, CursorAt(rows, codec, k)).Ok?
    ensures BelowCursor(rows, DecodeCursor(codec, CursorAt(rows, codec, k)).value) == rows[k..]
  {
    RestAfter(rows, k);
    if k > 0 {
      CursorDecodes(rows, codec, k);
    }
  }

  lemma RestAfter(rows: seq<Feature>, k: nat)
    requires Descending(rows) && k <= |rows|
    ensures k == 0 ==> BelowCursor(rows, None) == rows[k..]
    ensures k > 0 ==> BelowCursor(rows, Some(PlaceOf(rows[k - 1]))) == rows[k..]
  {
    if k == 0 {
      AllWithoutCursor(rows);
    } else {
      CursorSelectsTheRest(rows, k - 1);
    }
  }

  lemma PageAt(rows: seq<Feature>, codec: Codec, limit: nat, k: nat)
    requires Descending(rows) && codec.Valid() && Stored(rows) && 1 <= limit && k <= |rows|
    ensures FeaturesPage(rows, codec, limit, CursorAt(rows, codec, k)) == Ok(PageFrom(rows, codec, limit, k))
  {
    RowsBelowCursor(rows, codec, k);
    if k + limit < |rows| {
      assert rows[k..][..limit] == rows[k..k + limit];
      assert rows[k..][limit - 1] == rows[k + limit - 1];
    }
  }

  ghost predicate ReadsPages(read: Reader, rows: seq<Feature>, codec: Codec, limit: nat) {
    forall k: nat | k <= |rows| :: read(CursorAt(rows, codec, k)) == Ok(PageFrom(rows, codec, limit, k))
  }

  lemma ReaderReadsPages(rows: seq<Feature>, codec: Codec, asked: Option<int>)
    requires Descending(rows) && codec.Valid() && Stored(rows)
    ensures ReadsPages(ReaderOf(rows, codec, asked), rows, codec, ClampLimit(asked))
  {
    forall k: nat | k <= |rows|
      ensures ReaderOf(rows, codec, asked)(CursorAt(rows, codec, k)) == Ok(PageFrom(rows, codec, ClampLimit(asked), k))
    {
      PageAt(rows, codec, ClampLimit(asked), k);
    }
  }

  lemma {:induction false} FollowedFrom(read: Reader, rows: seq<Feature>, codec: Codec, limit: nat, k: nat,
      pages: seq<Page>)
    requires ReadsPages(read, rows, codec, limit) && 1 <= limit && k <= |rows|
    requires Followed(read, CursorAt(rows, codec, k), pages)
    ensures AllFeatures(pages) == rows[k..]
    ensures FullButLast(pages, limit)
    decreases |rows| - k
  {
    assert pages[0] == PageFrom(rows, codec, limit, k);
    if |pages| > 1 {
      FollowedFrom(read, rows, codec, limit, k + limit, pages[1..]);
      assert rows[k..] == rows[k..k + limit] + rows[k + limit..];
      assert forall i | 1 <= i < |pages| :: pages[i] == pages[1..][i - 1];
    } else {
      assert pages[1..] == [];
    }
  }

  /**
   * Following the cursors from the start visits every feature exactly once, newest first,
   * in full pages but for the last, whatever the limit.
   */
  lemma FollowingVisitsAll(rows: seq<Feature>, codec: Codec, asked: Option<int>, pages: seq<Page>)
    requires Descending(rows) && codec.Valid() && Stored(rows)
    requires Followed(ReaderOf(rows, codec, asked), None, pages)
    ensures AllFeatures(pages) == rows
    ensures FullButLast(pages, ClampLimit(asked))
  {
    ReaderReadsPages(rows, codec, asked);
    FollowedFrom(ReaderOf(rows, codec, asked), rows, codec, ClampLimit(asked), 0, pages);
    assert rows[0..] == rows;
  }

  lemma {:induction false} EndsFrom(read: Reader, rows: seq<Feature>, codec: Codec, limit: nat, k: nat)
      returns (pages: seq<Page>)
    requires ReadsPages(read, rows, codec, limit) && 1 <= limit && k <= |rows|
    ensures Followed(read, CursorAt(rows, codec, k), pages)
    ensures |pages| <= |rows| - k + 1
    decreases |rows| - k
  {
    var page := PageFrom(rows, codec, limit, k);
    if |rows| <= k + limit {
      pages := [page];
    } else {
      var later := EndsFrom(read, rows, codec, limit, k + limit);
      pages := [page] + later;
      assert pages[1..] == later;
    }
  }

  /** And following them comes to an end, without an error on the way. */
  lemma FollowingEnds(rows: seq<Feature>, codec: Codec, asked: Option<int>) returns (pages: seq<Page>)
    requires Descending(rows) && codec.Valid() && Stored(rows)
    ensures Followed(ReaderOf(rows, codec, asked), None, pages)
    ensures |pages| <= |rows| + 1
  {
    ReaderReadsPages(rows, codec, asked);
    pages := EndsFrom(ReaderOf(rows, codec, asked), rows, codec, ClampLimit(asked), 0);
  }
}
