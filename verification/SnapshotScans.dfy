// The handler around the pages: scan rows, their status, and a client that follows
// next_cursor to the end of a frozen snapshot. Cursors travel through a codec;
// Snapshot.CursorCodec is the source's own.

module SnapshotScans {
  import opened Wrappers
  import opened Snapshot

  datatype Status = Pending | Active | Done | Expired | Aborted

  /** One snapshot_scans row; `rows` is the exported snapshot, by warehouse, in key order. */
  datatype Scan = Scan(status: Status, token: nat, rows: map<nat, Table>)

  type Scans = map<string, Scan>

  datatype Reply =
    | Served(rows: Table, next: Option<string>)
    | ScopeViolation
    | InvalidCursor
    | CursorScopeViolation
    | SnapshotExpired
    | SnapshotInFlight
    | KeeperUnavailable

  const MAX_CONCURRENT_SCANS_PER_TOKEN := 1

  function RowsOf(scan: Scan, warehouse: nat): Table {
    if warehouse in scan.rows then scan.rows[warehouse] else []
  }

  function InFlight(scans: Scans, token: nat): set<string> {
    set s | s in scans && scans[s].token == token && (scans[s].status == Pending || scans[s].status == Active)
  }

  /** Page, scan status and cursor once the anchor is known. */
  function Serve(codec: Codec, scans: Scans, id: string, warehouse: nat, last: Key, limit: nat): (Scans, Reply)
    requires id in scans && 1 <= limit
  {
    var page := Page(RowsOf(scans[id], warehouse), last, limit);
    if |page| < limit then
      (if scans[id].status == Active then scans[id := scans[id].(status := Done)] else scans, Served(page, None))
    else (scans, Served(page, Some(ScanCursor(codec, id, warehouse, KeyOf(page[|page| - 1])))))
  }

  function ScanCursor(codec: Codec, id: string, warehouse: nat, last: Key): string {
    codec.encode(Cursor(id, warehouse, last.0, last.1))
  }

  function Continue(codec: Codec, scans: Scans, token: nat, warehouse: nat, raw: string, limit: nat): (Scans, Reply)
    requires 1 <= limit
  {
    match codec.decode(raw)
    case None => (scans, InvalidCursor)
    case Some(c) =>
      if c.warehouse != warehouse then (scans, CursorScopeViolation)
      else if c.scan !in scans then (scans, SnapshotExpired)
      else if scans[c.scan].token != token then (scans, CursorScopeViolation)
      else if scans[c.scan].status != Active then (scans, SnapshotExpired)
      else Serve(codec, scans, c.scan, warehouse, (c.item, c.bin), limit)
  }

  /** First page: `id` is the fresh uuid, `promoted` the keeper's snapshot, None if it did not answer in time. */
  function Begin(
    codec: Codec, scans: Scans, token: nat, warehouse: nat, id: string, promoted: Option<map<nat, Table>>, limit: nat): (Scans, Reply)
    requires id !in scans && 1 <= limit
  {
    if InFlight(scans, token) != {} then (scans, SnapshotInFlight)
    else if promoted.None? then (scans, KeeperUnavailable)
    else Serve(codec, scans[id := Scan(Active, token, promoted.value)], id, warehouse, FIRST, limit)
  }

  /** `live=1`: stateless paging over the rows as they are now, under a cursor of its own. */
  function ServeLive(codec: Codec, rows: map<nat, Table>, warehouse: nat, cursor: Option<string>, limit: nat): Reply
    requires 1 <= limit
  {
    var last := if cursor.None? then Some(Cursor("live", warehouse, 0, 0)) else codec.decode(cursor.value);
    if last.None? || last.value.scan != "live" then InvalidCursor
    else if last.value.warehouse != warehouse then CursorScopeViolation
    else LiveReply(codec, if warehouse in rows then rows[warehouse] else [], warehouse, (last.value.item, last.value.bin), limit)
  }

  function LiveCursor(codec: Codec, warehouse: nat, last: Key): string {
    codec.encode(Cursor("live", warehouse, last.0, last.1))
  }

  function LiveReply(codec: Codec, table: Table, warehouse: nat, last: Key, limit: nat): Reply
    requires 1 <= limit
  {
    var page := Page(table, last, limit);
    Served(page, if |page| < limit then None else Some(LiveCursor(codec, warehouse, KeyOf(page[|page| - 1]))))
  }

  class SnapshotApi {
    var scans: Scans
    const codec: Codec

    constructor (codec: Codec)
      ensures scans == map[] && this.codec == codec
    {
      this.scans, this.codec := map[], codec;
    }

    method LiveInventory(allowed: set<nat>, rows: map<nat, Table>, warehouse: nat, cursor: Option<string>, limit: nat) returns (reply: Reply)
      requires 1 <= limit
      ensures reply == if warehouse !in allowed then ScopeViolation else ServeLive(codec, rows, warehouse, cursor, limit)
    {
      if warehouse !in allowed { return ScopeViolation; }
      var last := FIRST;
      if cursor.Some? {
        var decoded := codec.decode(cursor.value);
        if decoded.None? || decoded.value.scan != "live" { return InvalidCursor; }
        if decoded.value.warehouse != warehouse { return CursorScopeViolation; }
        last := (decoded.value.item, decoded.value.bin);
      }
      var page := Page(if warehouse in rows then rows[warehouse] else [], last, limit);
      var next := None;
      if |page| == limit {
        var tail := page[|page| - 1];
        next := Some(codec.encode(Cursor("live", warehouse, tail.item, tail.bin)));
      }
      return Served(page, next);
    }

    method SnapshotInventory(
        allowed: set<nat>, token: nat, warehouse: nat, cursor: Option<string>, id: string,
        promoted: Option<map<nat, Table>>, limit: nat)
      returns (reply: Reply)
      requires id !in scans && 1 <= limit
      modifies this`scans
      ensures if warehouse !in allowed then scans == old(scans) && reply == ScopeViolation
        else if cursor.Some? then (scans, reply) == Continue(codec, old(scans), token, warehouse, cursor.value, limit)
        else (scans, reply) == Begin(codec, old(scans), token, warehouse, id, promoted, limit)
    {
      if warehouse !in allowed { return ScopeViolation; }
      var scan, last := id, FIRST;
      if cursor.Some? {
        var decoded := codec.decode(cursor.value);
        if decoded.None? { return InvalidCursor; }
        if decoded.value.warehouse != warehouse { return CursorScopeViolation; }
        scan := decoded.value.scan;
        if scan !in scans { return SnapshotExpired; }
        if scans[scan].token != token { return CursorScopeViolation; }
        if scans[scan].status != Active { return SnapshotExpired; }
        last := (decoded.value.item, decoded.value.bin);
      } else {
        if |InFlight(scans, token)| >= MAX_CONCURRENT_SCANS_PER_TOKEN { return SnapshotInFlight; }
        assert InFlight(scans, token) == {};
        ghost var before := scans;
        scans := scans[scan := Scan(Pending, token, map[])];
        if promoted.None? {
          scans := scans - {scan};
          assert scans == before;
          return KeeperUnavailable;
        }
        scans := scans[scan := Scan(Active, token, promoted.value)];
        assert scans == before[scan := Scan(Active, token, promoted.value)];
      }
      var rows := Page(RowsOf(scans[scan], warehouse), last, limit);
      var next := None;
      if |rows| < limit {
        if scans[scan].status == Active { scans := scans[scan := scans[scan].(status := Done)]; }
      } else {
        var tail := rows[|rows| - 1];
        next := Some(codec.encode(Cursor(scan, warehouse, tail.item, tail.bin)));
      }
      return Served(rows, next);
    }
  }

  // ---------- A client following next_cursor ----------

  /** At most `n` further pages from a cursor; the flag says the scan was served to its end. */
  function Follow(codec: Codec, scans: Scans, token: nat, warehouse: nat, raw: string, limit: nat, n: nat): (Scans, seq<Table>, bool)
    requires 1 <= limit
    decreases n
  {
    if n == 0 then (scans, [], false)
    else
      match Continue(codec, scans, token, warehouse, raw, limit)
      case (scans', Served(rows, Some(next))) =>
        var (scans'', pages, ended) := Follow(codec, scans', token, warehouse, next, limit, n - 1);
        (scans'', [rows] + pages, ended)
      case (scans', Served(rows, None)) => (scans', [rows], true)
      case (scans', _) => (scans', [], false)
  }

  /** The cursor of an active scan leads on from its key. */
  lemma ContinueServes(codec: Codec, scans: Scans, token: nat, warehouse: nat, id: string, last: Key, limit: nat)
    requires RoundTrips(codec) && 1 <= limit && id in scans && scans[id].token == token && scans[id].status == Active
    ensures Continue(codec, scans, token, warehouse, ScanCursor(codec, id, warehouse, last), limit)
         == Serve(codec, scans, id, warehouse, last, limit)
  {
    assert codec.decode(codec.encode(Cursor(id, warehouse, last.0, last.1))) == Some(Cursor(id, warehouse, last.0, last.1));
  }

  /** Through the codec, page by page, the client receives exactly the keyset pages, and the scan ends as done. */
  lemma {:induction false} FollowServesThePages(
    codec: Codec, scans: Scans, token: nat, warehouse: nat, id: string, last: Key, limit: nat, n: nat)
    requires RoundTrips(codec) && 1 <= limit && id in scans && scans[id].token == token && scans[id].status == Active
    requires n > |Beyond(RowsOf(scans[id], warehouse), last)|
    ensures Follow(codec, scans, token, warehouse, ScanCursor(codec, id, warehouse, last), limit, n)
         == (scans[id := scans[id].(status := Done)], Pages(RowsOf(scans[id], warehouse), last, limit), true)
    decreases n
  {
    ContinueServes(codec, scans, token, warehouse, id, last, limit);
    var rows := RowsOf(scans[id], warehouse);
    var page := Page(rows, last, limit);
    if |page| >= limit {
      PagesStep(rows, last, limit);
      FollowServesThePages(codec, scans, token, warehouse, id, KeyOf(page[limit - 1]), limit, n - 1);
    }
  }

  /**
   * A whole scan: first page and then every cursor. For every limit the client receives the
   * keyset pages of the frozen table (so no row twice, every key, and with unique keys the
   * whole table), after at most one page more than there are rows; the scan is then done.
   */
  lemma WholeScan(
    codec: Codec, scans: Scans, token: nat, warehouse: nat, id: string, snapshot: map<nat, Table>, limit: nat, n: nat)
    requires RoundTrips(codec) && 1 <= limit && id !in scans && InFlight(scans, token) == {}
    requires var rows := RowsOf(Scan(Active, token, snapshot), warehouse); Positive(rows) && n > |rows|
    ensures var rows := RowsOf(Scan(Active, token, snapshot), warehouse);
      var (scans1, reply) := Begin(codec, scans, token, warehouse, id, Some(snapshot), limit);
      reply.Served? &&
      if reply.next.None? then
        [reply.rows] == Pages(rows, FIRST, limit) && scans1 == scans[id := Scan(Done, token, snapshot)]
      else
        var (scans2, pages, ended) := Follow(codec, scans1, token, warehouse, reply.next.value, limit, n);
        ended && [reply.rows] + pages == Pages(rows, FIRST, limit) && scans2 == scans[id := Scan(Done, token, snapshot)]
  {
    var rows := RowsOf(Scan(Active, token, snapshot), warehouse);
    BeyondAll(rows, FIRST);
    var page := Page(rows, FIRST, limit);
    var scans1 := scans[id := Scan(Active, token, snapshot)];
    assert scans1[id := Scan(Done, token, snapshot)] == scans[id := Scan(Done, token, snapshot)];
    if |page| >= limit {
      PagesStep(rows, FIRST, limit);
      FollowServesThePages(codec, scans1, token, warehouse, id, KeyOf(page[limit - 1]), limit, n);
    }
  }

  /** A live client: the k-th page is served from the rows as they are then; the flag says it saw the end. */
  function FollowLive(codec: Codec, states: seq<map<nat, Table>>, warehouse: nat, cursor: Option<string>, limit: nat): (seq<Table>, bool)
    requires 1 <= limit
    decreases |states|
  {
    if states == [] then ([], false)
    else
      match ServeLive(codec, states[0], warehouse, cursor, limit)
      case Served(rows, Some(next)) =>
        var (pages, ended) := FollowLive(codec, states[1..], warehouse, Some(next), limit);
        ([rows] + pages, ended)
      case Served(rows, None) => ([rows], true)
      case _ => ([], false)
  }

  /** The warehouse's rows in each state. */
  function TablesOf(states: seq<map<nat, Table>>, warehouse: nat): seq<Table> {
    if states == [] then [] else [if warehouse in states[0] then states[0][warehouse] else []] + TablesOf(states[1..], warehouse)
  }

  /** The cursor stands for the anchor: none for the first page, its encoding for any. */
  predicate Anchors(codec: Codec, warehouse: nat, cursor: Option<string>, last: Key) {
    (cursor == None && last == FIRST) || cursor == Some(LiveCursor(codec, warehouse, last))
  }

  lemma ServesFromAnchor(codec: Codec, rows: map<nat, Table>, warehouse: nat, cursor: Option<string>, last: Key, limit: nat)
    requires RoundTrips(codec) && 1 <= limit && Anchors(codec, warehouse, cursor, last)
    ensures ServeLive(codec, rows, warehouse, cursor, limit)
         == LiveReply(codec, if warehouse in rows then rows[warehouse] else [], warehouse, last, limit)
  {
    assert codec.decode(codec.encode(Cursor("live", warehouse, last.0, last.1))) == Some(Cursor("live", warehouse, last.0, last.1));
  }

  lemma FollowLiveStep(codec: Codec, states: seq<map<nat, Table>>, warehouse: nat, cursor: Option<string>, last: Key, limit: nat, page: Table)
    requires RoundTrips(codec) && 1 <= limit && Anchors(codec, warehouse, cursor, last) && states != []
    requires page == Page(if warehouse in states[0] then states[0][warehouse] else [], last, limit)
    ensures FollowLive(codec, states, warehouse, cursor, limit) ==
      if |page| < limit then ([page], true)
      else
        var (pages, ended) := FollowLive(codec, states[1..], warehouse, Some(LiveCursor(codec, warehouse, KeyOf(page[|page| - 1]))), limit);
        ([page] + pages, ended)
  {
    ServesFromAnchor(codec, states[0], warehouse, cursor, last, limit);
  }

  /** Through the codec, a live client receives exactly the live keyset pages. */
  lemma {:induction false} FollowLiveServesThePages(
    codec: Codec, states: seq<map<nat, Table>>, warehouse: nat, cursor: Option<string>, last: Key, limit: nat)
    requires RoundTrips(codec) && 1 <= limit && Anchors(codec, warehouse, cursor, last)
    ensures FollowLive(codec, states, warehouse, cursor, limit) == LivePages(TablesOf(states, warehouse), last, limit)
    decreases |states|
  {
    if states != [] {
      var table := if warehouse in states[0] then states[0][warehouse] else [];
      var page := Page(table, last, limit);
      FollowLiveStep(codec, states, warehouse, cursor, last, limit, page);
      var tables := TablesOf(states, warehouse);
      assert tables[0] == table && tables[1..] == TablesOf(states[1..], warehouse);
      if |page| >= limit {
        var tail := KeyOf(page[limit - 1]);
        FollowLiveServesThePages(codec, states[1..], warehouse, Some(LiveCursor(codec, warehouse, tail)), tail, limit);
      }
    }
  }
}
