// POST /inbound/storage_bins of api/routes/inbound.py: mirroring a desired bin layout
// into one warehouse.

module BinLayout {
  import opened Wrappers

  /** The columns compared and written; a missing text is "". */
  datatype Attrs = Attrs(
    barcode: string, kind: string, aisle: string, row: string, level: string, position: string, pick: int, putaway: int)

  datatype Bin = Bin(code: string, zone: nat, active: bool, attrs: Attrs)

  /** One validated request row with its defaults filled in. */
  datatype Record = Record(code: string, attrs: Attrs)

  type Bins = seq<Bin>
  type Fold = string -> string

  function IsSpace(c: char): bool {
    c == ' ' || c == '\t' || c == '\n' || c == '\r'
  }

  function Trim(s: string): string
    decreases |s|
  {
    if s != "" && IsSpace(s[0]) then Trim(s[1..])
    else if s != "" && IsSpace(s[|s| - 1]) then Trim(s[..|s| - 1])
    else s
  }

  predicate SameAttrs(a: Attrs, b: Attrs) {
    && Trim(a.barcode) == Trim(b.barcode) && Trim(a.kind) == Trim(b.kind) && Trim(a.aisle) == Trim(b.aisle)
    && Trim(a.row) == Trim(b.row) && Trim(a.level) == Trim(b.level) && Trim(a.position) == Trim(b.position)
    && a.pick == b.pick && a.putaway == b.putaway
  }

  // ---------- Request validation ----------

  ghost predicate DistinctCodes(fold: Fold, records: seq<Record>) {
    forall i, j :: 0 <= i < j < |records| ==> fold(records[i].code) != fold(records[j].code)
  }

  /** A row that fails validation, or two rows whose codes fold alike. */
  ghost predicate Malformed(fold: Fold, rows: seq<Option<Record>>) {
    || (exists i :: 0 <= i < |rows| && rows[i].None?)
    || (exists i, j :: 0 <= i < j < |rows| && Clash(fold, rows[i], rows[j]))
  }

  predicate Clash(fold: Fold, a: Option<Record>, b: Option<Record>) {
    a.Some? && b.Some? && fold(a.value.code) == fold(b.value.code)
  }

  function Records(rows: seq<Option<Record>>): seq<Record>
    requires forall i :: 0 <= i < |rows| ==> rows[i].Some?
  {
    seq(|rows|, i requires 0 <= i < |rows| => rows[i].value)
  }

  function Codes(fold: Fold, records: seq<Record>): set<string> {
    set i | 0 <= i < |records| :: fold(records[i].code)
  }

  // ---------- Looking up ----------

  /** existing_by_code: of bins whose codes fold alike the last one wins. */
  function Index(bins: Bins, fold: Fold, code: string): (i: Option<nat>)
    ensures i.Some? ==> i.value < |bins| && fold(bins[i.value].code) == fold(code)
    ensures i.None? ==> forall k :: 0 <= k < |bins| ==> fold(bins[k].code) != fold(code)
  {
    if bins == [] then None
    else if fold(bins[|bins| - 1].code) == fold(code) then Some(|bins| - 1)
    else Index(bins[..|bins| - 1], fold, code)
  }

  /** The request row for a bin code. */
  function Find(records: seq<Record>, fold: Fold, code: string): (r: Option<Record>)
    ensures r.Some? ==> r.value in records && fold(r.value.code) == fold(code)
    ensures r.None? ==> forall k :: 0 <= k < |records| ==> fold(records[k].code) != fold(code)
  {
    if records == [] then None
    else if fold(records[|records| - 1].code) == fold(code) then Some(records[|records| - 1])
    else Find(records[..|records| - 1], fold, code)
  }

  // ---------- What one request does ----------

  /** `zone` is None on a dry run whose zone does not exist yet. */
  predicate Differs(b: Bin, r: Record, zone: Option<nat>, replace: bool) {
    (replace && !b.active) || Some(b.zone) != zone || !SameAttrs(b.attrs, r.attrs)
  }

  function Overwrite(b: Bin, r: Record, zone: nat, replace: bool): Bin {
    b.(zone := zone, attrs := r.attrs, active := b.active || replace)
  }

  /** What becomes of the i-th existing bin; `codes` are all requested codes. */
  function Mirrored(
    existing: Bins, i: nat, fold: Fold, records: seq<Record>, codes: set<string>, zone: nat, replace: bool): (b: Bin)
    requires i < |existing|
    ensures b.code == existing[i].code
  {
    var b := existing[i];
    var r := Find(records, fold, b.code);
    if r.Some? && Index(existing, fold, b.code) == Some(i) && Differs(b, r.value, Some(zone), replace) then
      Overwrite(b, r.value, zone, replace)
    else if replace && fold(b.code) !in codes then b.(active := false)
    else b
  }

  function Created(existing: Bins, fold: Fold, records: seq<Record>, zone: nat): Bins {
    if records == [] then []
    else
      var n := |records| - 1;
      var r := records[n];
      Created(existing, fold, records[..n], zone) +
      (if Index(existing, fold, r.code).None? then [Bin(r.code, zone, true, r.attrs)] else [])
  }

  function Layout(existing: Bins, fold: Fold, records: seq<Record>, codes: set<string>, zone: nat, replace: bool): (bins: Bins)
    ensures |bins| >= |existing|
  {
    seq(|existing|, i requires 0 <= i < |existing| => Mirrored(existing, i, fold, records, codes, zone, replace))
    + Created(existing, fold, records, zone)
  }

  datatype Counts = Counts(created: nat, updated: nat, same: nat)

  function Count(existing: Bins, fold: Fold, records: seq<Record>, zone: Option<nat>, replace: bool): (c: Counts)
    ensures c.created + c.updated + c.same == |records|
  {
    if records == [] then Counts(0, 0, 0)
    else
      var n := |records| - 1;
      CountOne(Count(existing, fold, records[..n], zone, replace), existing, fold, records[n], zone, replace)
  }

  function CountOne(c: Counts, existing: Bins, fold: Fold, r: Record, zone: Option<nat>, replace: bool): Counts {
    var k := Index(existing, fold, r.code);
    if k.None? then c.(created := c.created + 1)
    else if Differs(existing[k.value], r, zone, replace) then c.(updated := c.updated + 1)
    else c.(same := c.same + 1)
  }

  /** The zone the bins go to; on a dry run a missing zone stays missing. */
  function TargetZone(zone: Option<nat>, dryRun: bool, newZone: nat): Option<nat> {
    if zone.None? && !dryRun then Some(newZone) else zone
  }

  // ---------- The handler ----------

  datatype Reply = Done(counts: Counts) | InvalidRows | InventoryNotEmpty

  class Warehouse {
    var bins: Bins
    /** The zone of the request's zone code, once it exists. */
    var zone: Option<nat>
    const fold: Fold

    constructor (fold: Fold)
      ensures bins == [] && zone == None && this.fold == fold
    {
      this.bins, this.zone, this.fold := [], None, fold;
    }

    /** Row by row: None is a row that fails validation. */
    method Validate(rows: seq<Option<Record>>) returns (ok: bool, records: seq<Record>, codes: set<string>)
      ensures ok == !Malformed(fold, rows)
      ensures ok ==> records == Records(rows) && DistinctCodes(fold, records) && codes == Codes(fold, records)
    {
      ok, records, codes := true, [], {};
      for n := 0 to |rows|
        invariant ok ==> |records| == n && forall i :: 0 <= i < n ==> rows[i] == Some(records[i])
        invariant ok ==> DistinctCodes(fold, records)
        invariant ok ==> forall c :: c in codes <==> c in Codes(fold, records)
        invariant !ok ==> Malformed(fold, rows)
      {
        if ok {
          if rows[n].None? {
            ok := false;
          } else if fold(rows[n].value.code) in codes {
            var i :| 0 <= i < n && fold(records[i].code) == fold(rows[n].value.code);
            assert Clash(fold, rows[i], rows[n]);
            ok := false;
          } else {
            CodesGrow(fold, records, rows[n].value);
            codes := codes + {fold(rows[n].value.code)};
            records := records + [rows[n].value];
          }
        }
      }
      if ok {
        assert codes == Codes(fold, records);
        assert records == Records(rows);
      }
    }

    /** `newZone` is the id a newly inserted zone gets, `occupied` whether the warehouse holds stock. */
    method StorageBins(rows: seq<Option<Record>>, replace: bool, dryRun: bool, newZone: nat, occupied: bool) returns (reply: Reply)
      modifies this`bins, this`zone
      ensures reply == InvalidRows <==> Malformed(fold, rows)
      ensures reply == InventoryNotEmpty <==> !Malformed(fold, rows) && replace && !dryRun && occupied
      ensures !reply.Done? || dryRun ==> bins == old(bins) && zone == old(zone)
      ensures reply.Done? ==> reply.counts == Count(old(bins), fold, Records(rows), TargetZone(old(zone), dryRun, newZone), replace)
      ensures reply.Done? && !dryRun ==> zone == TargetZone(old(zone), false, newZone)
      ensures reply.Done? && !dryRun ==>
        bins == Layout(old(bins), fold, Records(rows), Codes(fold, Records(rows)), zone.value, replace)
    {
      var ok, records, codes := Validate(rows);
      if !ok { return InvalidRows; }
      if replace && !dryRun && occupied { return InventoryNotEmpty; }
      if zone.None? && !dryRun { zone := Some(newZone); }
      var existing := bins;
      if replace && !dryRun { Retire(codes); }
      if zone.Some? { NothingRequestedYet(existing, fold, codes, zone, replace); }
      var counts := Mirror(existing, records, codes, replace, dryRun);
      return Done(counts);
    }

    /** The loop over the validated rows. */
    method Mirror(existing: Bins, records: seq<Record>, codes: set<string>, replace: bool, dryRun: bool) returns (c: Counts)
      requires DistinctCodes(fold, records) && codes == Codes(fold, records)
      requires !dryRun ==> zone.Some? && bins == Layout(existing, fold, [], codes, zone.value, replace)
      modifies this`bins
      ensures c == Count(existing, fold, records, zone, replace)
      ensures if dryRun then bins == old(bins) else bins == Layout(existing, fold, records, codes, zone.value, replace)
    {
      c := Counts(0, 0, 0);
      assert records[..0] == [];
      for n := 0 to |records|
        invariant c == Count(existing, fold, records[..n], zone, replace)
        invariant if dryRun then bins == old(bins) else bins == Layout(existing, fold, records[..n], codes, zone.value, replace)
      {
        var r := records[n];
        assert records[..n + 1][..n] == records[..n];
        if !dryRun { OneMoreRecord(existing, fold, records, n, codes, zone.value, replace); }
        c := MirrorRow(existing, r, replace, dryRun, c);
      }
      assert records[..|records|] == records;
    }

    /** One iteration: counted always, written unless dry. */
    method MirrorRow(existing: Bins, r: Record, replace: bool, dryRun: bool, c: Counts) returns (c': Counts)
      requires !dryRun ==> zone.Some? && |bins| >= |existing|
      modifies this`bins
      ensures bins == if dryRun then old(bins) else OneMore(old(bins), existing, fold, r, zone.value, replace)
      ensures c' == CountOne(c, existing, fold, r, zone, replace)
    {
      var k := Index(existing, fold, r.code);
      if k.None? {
        if !dryRun { bins := bins + [Bin(r.code, zone.value, true, r.attrs)]; }
        return c.(created := c.created + 1);
      }
      if !Differs(existing[k.value], r, zone, replace) { return c.(same := c.same + 1); }
      if !dryRun { bins := bins[k.value := Overwrite(bins[k.value], r, zone.value, replace)]; }
      return c.(updated := c.updated + 1);
    }

    /** UPDATE bins SET is_active = FALSE for the bins not requested. */
    method Retire(codes: set<string>)
      modifies this`bins
      ensures bins == Layout(old(bins), fold, [], codes, 0, true)
    {
      var existing := bins;
      for i := 0 to |existing|
        invariant |bins| == |existing|
        invariant forall k :: 0 <= k < |existing| ==>
          bins[k] == if k < i then Mirrored(existing, k, fold, [], codes, 0, true) else existing[k]
      {
        if fold(bins[i].code) !in codes { bins := bins[i := bins[i].(active := false)]; }
      }
    }
  }

  // ---------- One row of the loop ----------

  lemma CodesGrow(fold: Fold, records: seq<Record>, r: Record)
    ensures Codes(fold, records + [r]) == Codes(fold, records) + {fold(r.code)}
  {
    var more := records + [r];
    assert more[|records|] == r;
    forall c ensures c in Codes(fold, more) <==> c in Codes(fold, records) || c == fold(r.code) {
      if c in Codes(fold, records) {
        var i :| 0 <= i < |records| && fold(records[i].code) == c;
        assert more[i] == records[i];
      }
    }
  }

  lemma NothingRequestedYet(existing: Bins, fold: Fold, codes: set<string>, zone: Option<nat>, replace: bool)
    requires zone.Some?
    ensures Layout(existing, fold, [], codes, zone.value, replace) == if replace then Layout(existing, fold, [], codes, 0, true) else existing
  {
  }

  lemma FindOneMore(fold: Fold, records: seq<Record>, n: nat, code: string)
    requires n < |records| && DistinctCodes(fold, records)
    ensures Find(records[..n + 1], fold, code) == if fold(records[n].code) == fold(code) then Some(records[n]) else Find(records[..n], fold, code)
    ensures fold(records[n].code) == fold(code) ==> Find(records[..n], fold, code).None?
  {
    assert records[..n + 1][..n] == records[..n];
    var before := Find(records[..n], fold, code);
    if before.Some? {
      var i :| 0 <= i < n && records[i] == before.value;
    }
  }

  lemma MirroredOneMore(
    existing: Bins, i: nat, fold: Fold, records: seq<Record>, n: nat, codes: set<string>, zone: nat, replace: bool)
    requires i < |existing| && n < |records| && DistinctCodes(fold, records) && fold(records[n].code) in codes
    ensures var before := Mirrored(existing, i, fold, records[..n], codes, zone, replace);
      Mirrored(existing, i, fold, records[..n + 1], codes, zone, replace) ==
        if Index(existing, fold, records[n].code) == Some(i) && Differs(existing[i], records[n], Some(zone), replace)
        then Overwrite(before, records[n], zone, replace) else before
  {
    FindOneMore(fold, records, n, existing[i].code);
    if fold(records[n].code) == fold(existing[i].code) { IndexOfSameFold(existing, fold, records[n].code, existing[i].code); }
  }

  lemma {:induction false} IndexOfSameFold(bins: Bins, fold: Fold, a: string, b: string)
    requires fold(a) == fold(b)
    ensures Index(bins, fold, a) == Index(bins, fold, b)
  {
    if bins != [] { IndexOfSameFold(bins[..|bins| - 1], fold, a, b); }
  }

  function OneMore(before: Bins, existing: Bins, fold: Fold, r: Record, zone: nat, replace: bool): Bins
    requires |before| >= |existing|
  {
    var k := Index(existing, fold, r.code);
    if k.None? then before + [Bin(r.code, zone, true, r.attrs)]
    else if !Differs(existing[k.value], r, Some(zone), replace) then before
    else before[k.value := Overwrite(before[k.value], r, zone, replace)]
  }

  function FrontAfter(front: Bins, existing: Bins, fold: Fold, r: Record, zone: nat, replace: bool): (f: Bins)
    requires |front| == |existing|
    ensures |f| == |front|
  {
    var k := Index(existing, fold, r.code);
    if k.Some? && Differs(existing[k.value], r, Some(zone), replace)
    then front[k.value := Overwrite(front[k.value], r, zone, replace)] else front
  }

  /** Where one more record leaves the mirrored part. */
  lemma FrontOneMore(
    existing: Bins, fold: Fold, records: seq<Record>, n: nat, codes: set<string>, zone: nat, replace: bool, before: Bins, after: Bins)
    requires n < |records| && DistinctCodes(fold, records) && fold(records[n].code) in codes
    requires |before| == |after| == |existing|
    requires forall i :: 0 <= i < |existing| ==> before[i] == Mirrored(existing, i, fold, records[..n], codes, zone, replace)
    requires forall i :: 0 <= i < |existing| ==> after[i] == Mirrored(existing, i, fold, records[..n + 1], codes, zone, replace)
    ensures after == FrontAfter(before, existing, fold, records[n], zone, replace)
  {
    var k := Index(existing, fold, records[n].code);
    var front := FrontAfter(before, existing, fold, records[n], zone, replace);
    forall i | 0 <= i < |existing| ensures after[i] == front[i] {
      MirroredOneMore(existing, i, fold, records, n, codes, zone, replace);
    }
  }

  lemma CreatedOneMore(existing: Bins, fold: Fold, records: seq<Record>, n: nat, zone: nat)
    requires n < |records|
    ensures Created(existing, fold, records[..n + 1], zone) == Created(existing, fold, records[..n], zone) +
      if Index(existing, fold, records[n].code).None? then [Bin(records[n].code, zone, true, records[n].attrs)] else []
  {
    assert records[..n + 1][..n] == records[..n];
  }

  lemma OneMoreRecord(existing: Bins, fold: Fold, records: seq<Record>, n: nat, codes: set<string>, zone: nat, replace: bool)
    requires n < |records| && DistinctCodes(fold, records) && codes == Codes(fold, records)
    ensures Layout(existing, fold, records[..n + 1], codes, zone, replace)
         == OneMore(Layout(existing, fold, records[..n], codes, zone, replace), existing, fold, records[n], zone, replace)
  {
    assert fold(records[n].code) in codes;
    var before := LayoutParts(existing, fold, records[..n], codes, zone, replace);
    var after := LayoutParts(existing, fold, records[..n + 1], codes, zone, replace);
    FrontOneMore(existing, fold, records, n, codes, zone, replace, before, after);
    CreatedOneMore(existing, fold, records, n, zone);
    Rejoin(before, Created(existing, fold, records[..n], zone), existing, fold, records[n], zone, replace);
  }

  /** Updating the front or extending the back, put together. */
  lemma Rejoin(front: Bins, back: Bins, existing: Bins, fold: Fold, r: Record, zone: nat, replace: bool)
    requires |front| == |existing|
    ensures OneMore(front + back, existing, fold, r, zone, replace) == FrontAfter(front, existing, fold, r, zone, replace)
        + (back + if Index(existing, fold, r.code).None? then [Bin(r.code, zone, true, r.attrs)] else [])
  {
    var k := Index(existing, fold, r.code);
    var b := Bin(r.code, zone, true, r.attrs);
    assert front + (back + [b]) == front + back + [b];
    assert back + [] == back;
    if k.Some? {
      var x := Overwrite(front[k.value], r, zone, replace);
      assert (front + back)[k.value := x] == front[k.value := x] + back;
    }
  }

  /** The two parts of a layout: the existing bins, mirrored, and the created ones. */
  lemma LayoutParts(existing: Bins, fold: Fold, records: seq<Record>, codes: set<string>, zone: nat, replace: bool) returns (front: Bins)
    ensures |front| == |existing| && forall i :: 0 <= i < |existing| ==> front[i] == Mirrored(existing, i, fold, records, codes, zone, replace)
    ensures Layout(existing, fold, records, codes, zone, replace) == front + Created(existing, fold, records, zone)
  {
    front := Layout(existing, fold, records, codes, zone, replace)[..|existing|];
  }

  // ---------- Main results ----------

  /** A zone id no existing bin uses. */
  ghost predicate NewZone(existing: Bins, zone: nat) {
    forall i :: 0 <= i < |existing| ==> existing[i].zone != zone
  }

  /** A dry run predicts the counts of the real run, also when the zone is still to be created. */
  lemma {:induction false} DryRunPredicts(existing: Bins, fold: Fold, records: seq<Record>, zone: Option<nat>, newZone: nat, replace: bool)
    requires zone.None? ==> NewZone(existing, newZone)
    ensures Count(existing, fold, records, TargetZone(zone, true, newZone), replace)
         == Count(existing, fold, records, TargetZone(zone, false, newZone), replace)
  {
    if records != [] {
      DryRunPredicts(existing, fold, records[..|records| - 1], zone, newZone, replace);
    }
  }

  /** The bins created are those of requested codes without a bin, in request order. */
  lemma {:induction false} InCreated(existing: Bins, fold: Fold, records: seq<Record>, zone: nat, b: Bin)
    ensures b in Created(existing, fold, records, zone) <==>
      exists r :: r in records && Index(existing, fold, r.code).None? && b == Bin(r.code, zone, true, r.attrs)
  {
    if records != [] {
      var n := |records| - 1;
      InCreated(existing, fold, records[..n], zone, b);
      assert forall r :: r in records <==> r in records[..n] || r == records[n];
    }
  }

  /** The requested code has its bin, and the bin does not differ from the request. */
  predicate IsMet(bins: Bins, fold: Fold, r: Record, zone: nat, replace: bool) {
    var k := Index(bins, fold, r.code);
    k.Some? && !Differs(bins[k.value], r, Some(zone), replace)
  }

  /** After the run every requested code has its bin, and it no longer differs. */
  lemma RequestedIsMet(existing: Bins, fold: Fold, records: seq<Record>, zone: nat, replace: bool, n: nat)
    requires n < |records| && DistinctCodes(fold, records)
    ensures var bins := Layout(existing, fold, records, Codes(fold, records), zone, replace);
      IsMet(bins, fold, records[n], zone, replace)
  {
    if Index(existing, fold, records[n].code).Some? {
      ExistingIsMet(existing, fold, records, zone, replace, n);
    } else {
      CreatedIsMet(existing, fold, records, zone, replace, n);
    }
  }

  lemma ExistingIsMet(existing: Bins, fold: Fold, records: seq<Record>, zone: nat, replace: bool, n: nat)
    requires n < |records| && DistinctCodes(fold, records) && Index(existing, fold, records[n].code).Some?
    ensures IsMet(Layout(existing, fold, records, Codes(fold, records), zone, replace), fold, records[n], zone, replace)
  {
    var r := records[n];
    var made := Created(existing, fold, records, zone);
    var front := LayoutParts(existing, fold, records, Codes(fold, records), zone, replace);
    var k := Index(existing, fold, r.code).value;
    FindIs(fold, records, n, existing[k].code);
    IndexOfSameFold(existing, fold, r.code, existing[k].code);
    assert !Differs(front[k], r, Some(zone), replace);
    forall b | b in made ensures fold(b.code) != fold(r.code) {
      InCreated(existing, fold, records, zone, b);
      var q :| q in records && Index(existing, fold, q.code).None? && b == Bin(q.code, zone, true, q.attrs);
    }
    IndexInFront(front, made, fold, r.code);
    IndexByCodes(existing, front, fold, r.code);
  }

  lemma CreatedIsMet(existing: Bins, fold: Fold, records: seq<Record>, zone: nat, replace: bool, n: nat)
    requires n < |records| && DistinctCodes(fold, records) && Index(existing, fold, records[n].code).None?
    ensures IsMet(Layout(existing, fold, records, Codes(fold, records), zone, replace), fold, records[n], zone, replace)
  {
    var r := records[n];
    var made := Created(existing, fold, records, zone);
    var front := LayoutParts(existing, fold, records, Codes(fold, records), zone, replace);
    var bins := front + made;
    InCreated(existing, fold, records, zone, Bin(r.code, zone, true, r.attrs));
    var at :| 0 <= at < |made| && made[at] == Bin(r.code, zone, true, r.attrs);
    assert bins[|front| + at] == made[at];
    NotInFront(existing, front, made, fold, r.code);
    var b := bins[Index(bins, fold, r.code).value];
    InCreated(existing, fold, records, zone, b);
    var q :| q in records && Index(existing, fold, q.code).None? && b == Bin(q.code, zone, true, q.attrs);
    var m :| 0 <= m < |records| && records[m] == q;
    assert m == n;
  }

  lemma FindIs(fold: Fold, records: seq<Record>, n: nat, code: string)
    requires n < |records| && DistinctCodes(fold, records) && fold(records[n].code) == fold(code)
    ensures Find(records, fold, code) == Some(records[n])
  {
    var r := Find(records, fold, code);
    var m :| 0 <= m < |records| && records[m] == r.value;
    assert m == n;
  }

  lemma {:induction false} IndexInFront(front: Bins, back: Bins, fold: Fold, code: string)
    requires forall b :: b in back ==> fold(b.code) != fold(code)
    ensures Index(front + back, fold, code) == Index(front, fold, code)
  {
    if back == [] {
      assert front + back == front;
    } else {
      var n := |back| - 1;
      assert (front + back)[..|front + back| - 1] == front + back[..n];
      assert back[n] in back;
      IndexInFront(front, back[..n], fold, code);
    }
  }

  lemma {:induction false} IndexByCodes(a: Bins, b: Bins, fold: Fold, code: string)
    requires |a| == |b| && forall i :: 0 <= i < |a| ==> a[i].code == b[i].code
    ensures Index(a, fold, code) == Index(b, fold, code)
  {
    if a != [] { IndexByCodes(a[..|a| - 1], b[..|b| - 1], fold, code); }
  }

  lemma NotInFront(existing: Bins, front: Bins, back: Bins, fold: Fold, code: string)
    requires |existing| == |front| && (forall i :: 0 <= i < |front| ==> existing[i].code == front[i].code)
    requires Index(existing, fold, code).None? && Index(front + back, fold, code).Some?
    ensures var k := Index(front + back, fold, code).value; (front + back)[k] in back
  {
    var k := Index(front + back, fold, code).value;
    assert forall i :: 0 <= i < |front| ==> fold((front + back)[i].code) == fold(existing[i].code) != fold(code);
    assert (front + back)[k] == back[k - |front|];
  }

  /** Mirroring is idempotent: the same request again creates and updates nothing and leaves every bin as it is. */
  lemma SecondRunIsIdle(existing: Bins, fold: Fold, records: seq<Record>, zone: nat, replace: bool)
    requires DistinctCodes(fold, records)
    ensures var codes := Codes(fold, records);
      var bins := Layout(existing, fold, records, codes, zone, replace);
      && Count(bins, fold, records, Some(zone), replace) == Counts(0, 0, |records|)
      && Layout(bins, fold, records, codes, zone, replace) == bins
  {
    var codes := Codes(fold, records);
    var bins := Layout(existing, fold, records, codes, zone, replace);
    forall n | 0 <= n < |records|
      ensures IsMet(bins, fold, records[n], zone, replace)
    {
      RequestedIsMet(existing, fold, records, zone, replace, n);
    }
    AllSame(bins, fold, records, zone, replace);
    forall i | 0 <= i < |bins| ensures Mirrored(bins, i, fold, records, codes, zone, replace) == bins[i] {
      LeftAlone(existing, bins, i, fold, records, zone, replace);
    }
  }

  lemma {:induction false} AllSame(bins: Bins, fold: Fold, records: seq<Record>, zone: nat, replace: bool)
    requires forall n :: 0 <= n < |records| ==> IsMet(bins, fold, records[n], zone, replace)
    ensures Count(bins, fold, records, Some(zone), replace) == Counts(0, 0, |records|)
    ensures Created(bins, fold, records, zone) == []
  {
    if records != [] {
      var n := |records| - 1;
      AllSame(bins, fold, records[..n], zone, replace);
      assert records[..n + 1] == records;
    }
  }

  /** A second run leaves one bin alone. */
  lemma LeftAlone(existing: Bins, bins: Bins, i: nat, fold: Fold, records: seq<Record>, zone: nat, replace: bool)
    requires DistinctCodes(fold, records) && bins == Layout(existing, fold, records, Codes(fold, records), zone, replace) && i < |bins|
    ensures Mirrored(bins, i, fold, records, Codes(fold, records), zone, replace) == bins[i]
  {
    var r := Find(records, fold, bins[i].code);
    if r.Some? {
      var n :| 0 <= n < |records| && records[n] == r.value;
      RequestedIsMet(existing, fold, records, zone, replace, n);
      IndexOfSameFold(bins, fold, records[n].code, bins[i].code);
      assert fold(records[n].code) in Codes(fold, records);
    } else if i >= |existing| {
      var b := Created(existing, fold, records, zone)[i - |existing|];
      InCreated(existing, fold, records, zone, b);
    } else {
      assert bins[i] == Mirrored(existing, i, fold, records, Codes(fold, records), zone, replace);
    }
  }

  /** After a replace the active codes are exactly the requested ones, up to case. */
  lemma ReplaceLeavesExactlyTheRequested(existing: Bins, fold: Fold, records: seq<Record>, zone: nat, code: string)
    requires DistinctCodes(fold, records)
    ensures var bins := Layout(existing, fold, records, Codes(fold, records), zone, true);
      (exists i :: 0 <= i < |bins| && bins[i].active && fold(bins[i].code) == fold(code)) <==> fold(code) in Codes(fold, records)
  {
    var codes := Codes(fold, records);
    var bins := Layout(existing, fold, records, codes, zone, true);
    if fold(code) in codes {
      var n :| 0 <= n < |records| && fold(records[n].code) == fold(code);
      RequestedIsMet(existing, fold, records, zone, true, n);
      var k := Index(bins, fold, records[n].code).value;
      assert bins[k].active && fold(bins[k].code) == fold(code);
    }
    forall i | 0 <= i < |bins| && bins[i].active ensures fold(bins[i].code) in codes {
      if i >= |existing| {
        InCreated(existing, fold, records, zone, Created(existing, fold, records, zone)[i - |existing|]);
      } else {
        var r := Find(records, fold, existing[i].code);
        if r.Some? {
          var n :| 0 <= n < |records| && records[n] == r.value;
          assert fold(records[n].code) in codes;
        }
      }
    }
  }
}
