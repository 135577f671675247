// GET /api/v1/snapshot/inventory of api/routes/snapshot.py: keyset paging with an
// encoded cursor, over a frozen snapshot or over live rows.

module Snapshot {
  import opened Wrappers
  import opened Base64Url

  // ---------- The cursor ----------

  datatype Cursor = Cursor(scan: string, warehouse: nat, item: nat, bin: nat)

  /** json.dumps on a cursor's four fields and json.loads on bytes, None where it raises. */
  datatype Json = Json(dumps: Cursor -> seq<byte>, loads: seq<byte> -> Option<Cursor>)

  ghost predicate Inverse(json: Json) {
    forall c :: json.loads(json.dumps(c)) == Some(c)
  }

  function EncodeCursor(json: Json, c: Cursor): string {
    Strip(Encode(json.dumps(c)))
  }

  function DecodeCursor(json: Json, raw: string): Option<Cursor> {
    match Decode(Pad(raw))
    case None => None
    case Some(bytes) => json.loads(bytes)
  }

  lemma CursorRoundTrip(json: Json, c: Cursor)
    requires Inverse(json)
    ensures DecodeCursor(json, EncodeCursor(json, c)) == Some(c)
  {
    StrippedRoundTrip(json.dumps(c));
  }

  /** A cursor's way to the wire and back. */
  datatype Codec = Codec(encode: Cursor -> string, decode: string -> Option<Cursor>)

  ghost predicate RoundTrips(codec: Codec) {
    forall c :: codec.decode(codec.encode(c)) == Some(c)
  }

  function CursorCodec(json: Json): Codec {
    Codec(c => EncodeCursor(json, c), raw => DecodeCursor(json, raw))
  }

  lemma CursorCodecRoundTrips(json: Json)
    requires Inverse(json)
    ensures RoundTrips(CursorCodec(json))
  {
    forall c ensures CursorCodec(json).decode(CursorCodec(json).encode(c)) == Some(c) {
      CursorRoundTrip(json, c);
    }
  }

  // ---------- One page ----------

  /** One inventory row of a warehouse; several lots may share one (item, bin). */
  datatype Row = Row(item: nat, bin: nat, lot: string, qty: int)
  type Table = seq<Row>

  /** (item, bin) */
  type Key = (nat, nat)

  function KeyOf(r: Row): Key {
    (r.item, r.bin)
  }

  predicate Less(a: Key, b: Key) {
    a.0 < b.0 || (a.0 == b.0 && a.1 < b.1)
  }

  /** ORDER BY item_id, bin_id. */
  ghost predicate Ordered(t: Table) {
    forall i, j :: 0 <= i < j < |t| ==> !Less(KeyOf(t[j]), KeyOf(t[i]))
  }

  ghost predicate UniqueKeys(t: Table) {
    forall i, j :: 0 <= i < j < |t| ==> KeyOf(t[i]) != KeyOf(t[j])
  }

  /** Serial ids start at 1, so the first anchor (0, 0) is below every key. */
  const FIRST: Key := (0, 0)

  ghost predicate Positive(t: Table) {
    forall i :: 0 <= i < |t| ==> t[i].item >= 1
  }

  /** The rows beyond the anchor. */
  function Beyond(t: Table, last: Key): Table {
    if t == [] then []
    else if Less(last, KeyOf(t[0])) then [t[0]] + Beyond(t[1..], last)
    else Beyond(t[1..], last)
  }

  function Page(t: Table, last: Key, limit: nat): Table {
    if |Beyond(t, last)| <= limit then Beyond(t, last) else Beyond(t, last)[..limit]
  }

  /** All pages of one frozen table: a full page leads on from its last row, a partial one ends the scan. */
  function Pages(t: Table, last: Key, limit: nat): seq<Table>
    requires 1 <= limit
    decreases |Beyond(t, last)|
  {
    var page := Page(t, last, limit);
    if |page| < limit then [page]
    else
      FewerBeyond(t, last, limit);
      [page] + Pages(t, KeyOf(page[limit - 1]), limit)
  }

  function Flatten(pages: seq<Table>): Table {
    if pages == [] then [] else pages[0] + Flatten(pages[1..])
  }

  /** A full page is followed by the pages beyond its last row. */
  lemma PagesStep(t: Table, last: Key, limit: nat)
    requires 1 <= limit <= |Page(t, last, limit)|
    ensures var page := Page(t, last, limit); var tail := KeyOf(page[limit - 1]);
      && Flatten(Pages(t, last, limit)) == page + Flatten(Pages(t, tail, limit))
      && |Beyond(t, tail)| < |Beyond(t, last)|
  {
    var page := Page(t, last, limit);
    FewerBeyond(t, last, limit);
    var rest := Pages(t, KeyOf(page[limit - 1]), limit);
    assert ([page] + rest)[1..] == rest;
  }

  /** A partial page is the last. */
  lemma PagesEnd(t: Table, last: Key, limit: nat)
    requires 1 <= limit && |Page(t, last, limit)| < limit
    ensures Flatten(Pages(t, last, limit)) == Beyond(t, last)
  {
    assert [Beyond(t, last)][1..] == [];
  }

  // ---------- Lemmas on Beyond ----------

  lemma {:induction false} InBeyond(t: Table, last: Key, r: Row)
    ensures r in Beyond(t, last) <==> r in t && Less(last, KeyOf(r))
  {
    if t != [] {
      InBeyond(t[1..], last, r);
      assert r in t <==> r == t[0] || r in t[1..];
    }
  }

  /** Going on from a later anchor drops rows from the front condition by condition. */
  lemma {:induction false} BeyondTwice(t: Table, a: Key, b: Key)
    requires a == b || Less(a, b)
    ensures Beyond(Beyond(t, a), b) == Beyond(t, b)
  {
    if t != [] {
      BeyondTwice(t[1..], a, b);
      if Less(a, KeyOf(t[0])) {
        var rows := [t[0]] + Beyond(t[1..], a);
        assert Beyond(t, a) == rows && rows[0] == t[0] && rows[1..] == Beyond(t[1..], a);
      }
    }
  }

  lemma {:induction false} BeyondShrinks(t: Table, b: Key)
    ensures |Beyond(t, b)| <= |t|
    ensures (exists r :: r in t && !Less(b, KeyOf(r))) ==> |Beyond(t, b)| < |t|
  {
    if t != [] {
      BeyondShrinks(t[1..], b);
      if r :| r in t && !Less(b, KeyOf(r)) {
        assert r == t[0] || r in t[1..];
      }
    }
  }

  lemma FewerBeyond(t: Table, last: Key, limit: nat)
    requires 1 <= limit <= |Page(t, last, limit)|
    ensures var tail := Page(t, last, limit)[limit - 1];
      Less(last, KeyOf(tail)) && |Beyond(t, KeyOf(tail))| < |Beyond(t, last)|
  {
    var tail := Page(t, last, limit)[limit - 1];
    assert tail in Beyond(t, last);
    InBeyond(t, last, tail);
    BeyondTwice(t, last, KeyOf(tail));
    BeyondShrinks(Beyond(t, last), KeyOf(tail));
  }

  lemma {:induction false} BeyondOrdered(t: Table, last: Key)
    requires Ordered(t)
    ensures Ordered(Beyond(t, last))
  {
    if t != [] {
      BeyondOrdered(t[1..], last);
      forall r | r in Beyond(t[1..], last) ensures !Less(KeyOf(r), KeyOf(t[0])) {
        InBeyond(t[1..], last, r);
      }
    }
  }

  lemma {:induction false} BeyondAll(t: Table, b: Key)
    requires forall i :: 0 <= i < |t| ==> Less(b, KeyOf(t[i]))
    ensures Beyond(t, b) == t
  {
    if t != [] { BeyondAll(t[1..], b); }
  }

  lemma {:induction false} BeyondNone(t: Table, b: Key)
    requires forall i :: 0 <= i < |t| ==> !Less(b, KeyOf(t[i]))
    ensures Beyond(t, b) == []
  {
    if t != [] { BeyondNone(t[1..], b); }
  }

  lemma {:induction false} BeyondConcat(s: Table, t: Table, b: Key)
    ensures Beyond(s + t, b) == Beyond(s, b) + Beyond(t, b)
  {
    if s == [] {
      assert s + t == t;
    } else {
      BeyondConcat(s[1..], t, b);
      assert (s + t)[1..] == s[1..] + t;
    }
  }

  /** What a full page leaves behind: the rest of the rows, minus those sharing its last key. */
  lemma AfterPage(t: Table, last: Key, limit: nat)
    requires Ordered(t) && 1 <= limit <= |Page(t, last, limit)|
    ensures var rows := Beyond(t, last); var tail := KeyOf(rows[limit - 1]);
      Beyond(t, tail) == Beyond(rows[limit..], tail)
  {
    var rows := Beyond(t, last);
    var tail := KeyOf(rows[limit - 1]);
    FewerBeyond(t, last, limit);
    BeyondTwice(t, last, tail);
    BeyondOrdered(t, last);
    assert rows == rows[..limit] + rows[limit..];
    BeyondConcat(rows[..limit], rows[limit..], tail);
    forall i | 0 <= i < limit ensures !Less(tail, KeyOf(rows[..limit][i])) {
      if i < limit - 1 { assert !Less(KeyOf(rows[limit - 1]), KeyOf(rows[i])); }
    }
    BeyondNone(rows[..limit], tail);
  }

  // ---------- Frozen snapshot ----------

  /** No row is returned twice: the pages together hold no more copies of a row than the table. */
  lemma {:induction false} NoRowTwice(t: Table, last: Key, limit: nat)
    requires 1 <= limit && Ordered(t)
    ensures multiset(Flatten(Pages(t, last, limit))) <= multiset(Beyond(t, last))
    decreases |Beyond(t, last)|
  {
    var rows := Beyond(t, last);
    var page := Page(t, last, limit);
    if |page| < limit {
      PagesEnd(t, last, limit);
    } else {
      var tail := KeyOf(page[limit - 1]);
      PagesStep(t, last, limit);
      NoRowTwice(t, tail, limit);
      AfterPage(t, last, limit);
      FewerCopies(rows[limit..], tail);
      assert rows == rows[..limit] + rows[limit..];
    }
  }

  lemma {:induction false} FewerCopies(t: Table, b: Key)
    ensures multiset(Beyond(t, b)) <= multiset(t)
  {
    if t != [] {
      FewerCopies(t[1..], b);
      assert t == [t[0]] + t[1..];
    }
  }

  /** Every key beyond the anchor is reached, also where several lots share it. */
  lemma {:induction false} EveryKeyReached(t: Table, last: Key, limit: nat, r: Row)
    requires 1 <= limit && Ordered(t) && r in t && Less(last, KeyOf(r))
    ensures exists s :: s in Flatten(Pages(t, last, limit)) && KeyOf(s) == KeyOf(r)
    decreases |Beyond(t, last)|
  {
    var rows := Beyond(t, last);
    var page := Page(t, last, limit);
    InBeyond(t, last, r);
    if |page| < limit {
      PagesEnd(t, last, limit);
    } else {
      var tail := KeyOf(page[limit - 1]);
      PagesStep(t, last, limit);
      if Less(tail, KeyOf(r)) {
        EveryKeyReached(t, tail, limit, r);
      } else {
        BeyondOrdered(t, last);
        var i :| 0 <= i < |rows| && rows[i] == r;
        var s := if i < limit then page[i] else page[limit - 1];
        if i >= limit { assert !Less(KeyOf(rows[i]), KeyOf(rows[limit - 1])); }
        assert s in page && KeyOf(s) == KeyOf(r);
      }
    }
  }

  /** With unique keys the pages, joined, are the rows beyond the anchor. */
  lemma {:induction false} PagesJoin(t: Table, last: Key, limit: nat)
    requires 1 <= limit && Ordered(t) && UniqueKeys(t)
    ensures Flatten(Pages(t, last, limit)) == Beyond(t, last)
    decreases |Beyond(t, last)|
  {
    var rows := Beyond(t, last);
    var page := Page(t, last, limit);
    if |page| < limit {
      PagesEnd(t, last, limit);
    } else {
      PagesStep(t, last, limit);
      PagesJoin(t, KeyOf(page[limit - 1]), limit);
      AfterPage(t, last, limit);
      BeyondOrdered(t, last);
      BeyondUnique(t, last);
      RestIsBeyond(rows, limit);
      assert rows == rows[..limit] + rows[limit..];
    }
  }

  lemma RestIsBeyond(rows: Table, limit: nat)
    requires Ordered(rows) && UniqueKeys(rows) && 1 <= limit <= |rows|
    ensures Beyond(rows[limit..], KeyOf(rows[limit - 1])) == rows[limit..]
  {
    var tail := KeyOf(rows[limit - 1]);
    forall i | 0 <= i < |rows[limit..]| ensures Less(tail, KeyOf(rows[limit..][i])) {
      assert !Less(KeyOf(rows[limit + i]), KeyOf(rows[limit - 1])) && KeyOf(rows[limit + i]) != KeyOf(rows[limit - 1]);
    }
    BeyondAll(rows[limit..], tail);
  }

  lemma {:induction false} BeyondUnique(t: Table, last: Key)
    requires UniqueKeys(t)
    ensures UniqueKeys(Beyond(t, last))
  {
    if t != [] {
      BeyondUnique(t[1..], last);
      forall r | r in Beyond(t[1..], last) ensures KeyOf(r) != KeyOf(t[0]) {
        InBeyond(t[1..], last, r);
      }
    }
  }

  /** The number of pages: one per full limit, and a last partial one. */
  lemma {:induction false} PagesAreFew(t: Table, last: Key, limit: nat)
    requires 1 <= limit
    ensures 1 <= |Pages(t, last, limit)| <= |Beyond(t, last)| + 1
    decreases |Beyond(t, last)|
  {
    var page := Page(t, last, limit);
    if |page| >= limit {
      FewerBeyond(t, last, limit);
      PagesAreFew(t, KeyOf(page[limit - 1]), limit);
    }
  }

  /**
   * The pages of every limit join to the sorted table exactly when its keys are unique:
   * a page ending between two lots of one (item, bin) loses the second.
   */
  lemma WholeTableExactlyWhenUnique(t: Table)
    requires Ordered(t) && Positive(t)
    ensures UniqueKeys(t) <==> forall limit :: limit >= 1 ==> Flatten(Pages(t, FIRST, limit)) == t
  {
    BeyondAll(t, FIRST);
    if UniqueKeys(t) {
      forall limit | limit >= 1 ensures Flatten(Pages(t, FIRST, limit)) == t {
        PagesJoin(t, FIRST, limit);
      }
    } else {
      var i, j :| 0 <= i < j < |t| && KeyOf(t[i]) == KeyOf(t[j]);
      SplitLotsAreLost(t, i, j);
    }
  }

  lemma SplitLotsAreLost(t: Table, i: nat, j: nat)
    requires Ordered(t) && Positive(t) && i < j < |t| && KeyOf(t[i]) == KeyOf(t[j])
    ensures Flatten(Pages(t, FIRST, i + 1)) != t
  {
    BeyondAll(t, FIRST);
    var tail := KeyOf(t[i]);
    assert Page(t, FIRST, i + 1) == t[..i + 1];
    PagesStep(t, FIRST, i + 1);
    NoRowTwice(t, tail, i + 1);
    SameKeyBetween(t, i, j);
    NextIsLost(t, i, Flatten(Pages(t, tail, i + 1)));
  }

  lemma NextIsLost(t: Table, i: nat, rest: Table)
    requires i + 1 < |t| && KeyOf(t[i + 1]) == KeyOf(t[i])
    requires multiset(rest) <= multiset(Beyond(t, KeyOf(t[i])))
    ensures t[..i + 1] + rest != t
  {
    if t[..i + 1] + rest == t {
      assert rest[0] == (t[..i + 1] + rest)[i + 1] == t[i + 1];
      assert t[i + 1] in multiset(rest);
      InBeyond(t, KeyOf(t[i]), t[i + 1]);
    }
  }

  /** Rows between two of one key have that key. */
  lemma SameKeyBetween(t: Table, i: nat, j: nat)
    requires Ordered(t) && i < j < |t| && KeyOf(t[i]) == KeyOf(t[j])
    ensures KeyOf(t[i + 1]) == KeyOf(t[i])
  {
    if i + 1 < j {
      assert !Less(KeyOf(t[j]), KeyOf(t[i + 1])) && !Less(KeyOf(t[i + 1]), KeyOf(t[i]));
    }
  }

  // ---------- Live paging: the table changes between pages ----------

  /** Page k reads the table as it is then; the flag says the scan reached a partial page. */
  function LivePages(tables: seq<Table>, last: Key, limit: nat): (seq<Table>, bool)
    requires 1 <= limit
  {
    if tables == [] then ([], false)
    else
      var page := Page(tables[0], last, limit);
      if |page| < limit then ([page], true)
      else
        var (rest, ended) := LivePages(tables[1..], KeyOf(page[limit - 1]), limit);
        ([page] + rest, ended)
  }

  /** However the rows move in between, later pages hold only later keys: no key is returned by two pages. */
  lemma {:induction false} LiveKeysRise(tables: seq<Table>, last: Key, limit: nat, p: nat, r: Row)
    requires 1 <= limit && (forall i :: 0 <= i < |tables| ==> Ordered(tables[i]))
    requires p < |LivePages(tables, last, limit).0| && r in LivePages(tables, last, limit).0[p]
    ensures Less(last, KeyOf(r))
    ensures forall q, s :: 0 <= q < p && s in LivePages(tables, last, limit).0[q] ==> Less(KeyOf(s), KeyOf(r))
  {
    var page := Page(tables[0], last, limit);
    if p == 0 {
      assert r in Beyond(tables[0], last);
      InBeyond(tables[0], last, r);
    } else {
      var tail := page[limit - 1];
      LiveKeysRise(tables[1..], KeyOf(tail), limit, p - 1, r);
      FewerBeyond(tables[0], last, limit);
      BeyondOrdered(tables[0], last);
      var pages := LivePages(tables, last, limit).0;
      forall q, s | 0 <= q < p && s in pages[q] ensures Less(KeyOf(s), KeyOf(r)) {
        if q == 0 {
          var i :| 0 <= i < |page| && page[i] == s;
          if i < limit - 1 { assert !Less(KeyOf(Beyond(tables[0], last)[limit - 1]), KeyOf(Beyond(tables[0], last)[i])); }
        } else {
          assert s in LivePages(tables[1..], KeyOf(tail), limit).0[q - 1];
        }
      }
    }
  }

  /** A live scan that ended returned every key that was there on every page. */
  lemma {:induction false} LiveReachesSteadyKeys(tables: seq<Table>, last: Key, limit: nat, k: Key)
    requires 1 <= limit && (forall i :: 0 <= i < |tables| ==> Ordered(tables[i]) && Has(tables[i], k))
    requires Less(last, k) && LivePages(tables, last, limit).1
    ensures exists p :: 0 <= p < |LivePages(tables, last, limit).0| && Has(LivePages(tables, last, limit).0[p], k)
  {
    var page := Page(tables[0], last, limit);
    var rows := Beyond(tables[0], last);
    var r :| r in tables[0] && KeyOf(r) == k;
    InBeyond(tables[0], last, r);
    if |page| < limit {
      assert Has(LivePages(tables, last, limit).0[0], k);
    } else {
      var tail := KeyOf(page[limit - 1]);
      var rest := LivePages(tables[1..], tail, limit).0;
      if Less(tail, k) {
        LiveReachesSteadyKeys(tables[1..], tail, limit, k);
        var p :| 0 <= p < |rest| && Has(rest[p], k);
        assert ([page] + rest)[p + 1] == rest[p];
      } else {
        BeyondOrdered(tables[0], last);
        var i :| 0 <= i < |rows| && rows[i] == r;
        var s := if i < limit then page[i] else page[limit - 1];
        if i >= limit { assert !Less(KeyOf(rows[i]), KeyOf(rows[limit - 1])); }
        assert s in page && KeyOf(s) == k;
        assert Has(LivePages(tables, last, limit).0[0], k);
      }
    }
  }

  ghost predicate Has(t: Table, k: Key) {
    exists r :: r in t && KeyOf(r) == k
  }
}
