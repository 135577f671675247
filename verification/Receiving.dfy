// POST /receive and /cancel of api/routes/receiving.py: item receipts against
// purchase orders, and the reversal of receipts by id.

module Receiving {
  import opened Wrappers
  import opened Sums

  datatype LineStatus = LinePending | LinePartial | LineReceived
  datatype PoStatus = Open | Partial | Received | Closed | Archived

  datatype Line = Line(ordered: nat, received: int, status: LineStatus)

  /** One line per item. */
  datatype Po = Po(warehouse: nat, status: PoStatus, lines: map<nat, Line>)

  /** `po` is None on the receipt of a customer return. */
  datatype Receipt = Receipt(po: Option<nat>, item: nat, qty: nat, bin: nat, warehouse: nat)

  datatype Scope = Admin | Only(warehouses: set<nat>)

  /** (item, bin) */
  type Place = (nat, nat)

  datatype Db = Db(
    pos: map<nat, Po>, receipts: map<nat, Receipt>, inventory: map<Place, int>, bins: map<nat, nat>, nextId: nat)

  datatype Entry = Entry(item: nat, qty: nat, bin: nat)

  datatype Error = PoNotFound | NotReceivable | BinNotFound | BinElsewhere | ItemNotOnPo | OverReceipt | OtherPos
  datatype Result<T> = Ok(value: T) | Err(error: Error)

  predicate InScope(scope: Scope, warehouse: nat) {
    scope.Admin? || warehouse in scope.warehouses
  }

  function LineStatusOf(received: int, ordered: nat): LineStatus {
    if received == 0 then LinePending else if received >= ordered then LineReceived else LinePartial
  }

  function PoStatusOf(lines: map<nat, Line>): PoStatus {
    if forall i :: i in lines ==> lines[i].received >= lines[i].ordered then Received
    else if exists i :: i in lines && lines[i].received > 0 then Partial
    else Open
  }

  function OnHand(inventory: map<Place, int>, place: Place): int {
    if place in inventory then inventory[place] else 0
  }

  /** GREATEST(0, n). */
  function Clamp(n: int): int {
    if n < 0 then 0 else n
  }

  // ---------- Receiving ----------

  /** One entry of a receive request. */
  function ReceiveOne(db: Db, po: nat, e: Entry, allowOver: bool): Result<Db>
    requires po in db.pos
  {
    var lines := db.pos[po].lines;
    if e.bin !in db.bins then Err(BinNotFound)
    else if db.bins[e.bin] != db.pos[po].warehouse then Err(BinElsewhere)
    else if e.item !in lines then Err(ItemNotOnPo)
    else if e.qty > lines[e.item].ordered - lines[e.item].received && !allowOver then Err(OverReceipt)
    else
      var received := lines[e.item].received + e.qty;
      var status := if received >= lines[e.item].ordered then LineReceived else LinePartial;
      var line := lines[e.item].(received := received, status := status);
      Ok(db.(
        receipts := db.receipts[db.nextId := Receipt(Some(po), e.item, e.qty, e.bin, db.pos[po].warehouse)],
        pos := db.pos[po := db.pos[po].(lines := lines[e.item := line])],
        inventory := db.inventory[(e.item, e.bin) := OnHand(db.inventory, (e.item, e.bin)) + e.qty],
        nextId := db.nextId + 1))
  }

  function ReceiveAll(db: Db, po: nat, entries: seq<Entry>, allowOver: bool): (r: Result<Db>)
    requires po in db.pos
    ensures r.Ok? ==> po in r.value.pos && r.value.nextId == db.nextId + |entries|
  {
    if entries == [] then Ok(db)
    else
      var n := |entries| - 1;
      match ReceiveAll(db, po, entries[..n], allowOver)
      case Err(error) => Err(error)
      case Ok(db') => ReceiveOne(db', po, entries[n], allowOver)
  }

  /** The PO status a receive writes, from the line statuses. */
  function ReceivedStatus(lines: map<nat, Line>): PoStatus {
    if forall i :: i in lines ==> lines[i].status == LineReceived then Received else Partial
  }

  function Receive(db: Db, scope: Scope, po: nat, entries: seq<Entry>, allowOver: bool): Result<Db> {
    if po !in db.pos || !InScope(scope, db.pos[po].warehouse) then Err(PoNotFound)
    else if db.pos[po].status != Open && db.pos[po].status != Partial then Err(NotReceivable)
    else
      match ReceiveAll(db, po, entries, allowOver)
      case Err(error) => Err(error)
      case Ok(db') => Ok(db'.(pos := db'.pos[po := db'.pos[po].(status := ReceivedStatus(db'.pos[po].lines))]))
  }

  // ---------- Cancelling ----------

  predicate Reversible(db: Db, scope: Scope, id: nat) {
    id in db.receipts && InScope(scope, db.receipts[id].warehouse)
  }

  function ReverseLine(pos: map<nat, Po>, r: Receipt): map<nat, Po> {
    if r.po.Some? && r.po.value in pos && r.item in pos[r.po.value].lines then
      var po := pos[r.po.value];
      var received := Clamp(po.lines[r.item].received - r.qty);
      var line := po.lines[r.item].(received := received, status := LineStatusOf(received, po.lines[r.item].ordered));
      pos[r.po.value := po.(lines := po.lines[r.item := line])]
    else pos
  }

  function ReverseStock(inventory: map<Place, int>, r: Receipt): map<Place, int> {
    if (r.item, r.bin) in inventory then inventory[(r.item, r.bin) := Clamp(inventory[(r.item, r.bin)] - r.qty)]
    else inventory
  }

  function CancelOne(db: Db, scope: Scope, id: nat): Db {
    if !Reversible(db, scope, id) then db
    else
      var r := db.receipts[id];
      db.(inventory := ReverseStock(db.inventory, r), pos := ReverseLine(db.pos, r), receipts := db.receipts - {id})
  }

  function CancelAll(db: Db, scope: Scope, ids: seq<nat>): Db {
    if ids == [] then db else CancelOne(CancelAll(db, scope, ids[..|ids| - 1]), scope, ids[|ids| - 1])
  }

  /** Some receipt the caller can see belongs to another purchase order; a return receipt belongs to none. */
  predicate Mismatched(db: Db, scope: Scope, po: nat, ids: seq<nat>) {
    exists id :: id in ids && Reversible(db, scope, id) && db.receipts[id].po.Some? && db.receipts[id].po.value != po
  }

  function Refresh(pos: map<nat, Po>, po: nat): map<nat, Po> {
    if po in pos then pos[po := pos[po].(status := PoStatusOf(pos[po].lines))] else pos
  }

  function Cancel(db: Db, scope: Scope, po: nat, ids: seq<nat>): Result<Db> {
    if ids == [] then Ok(db)
    else if Mismatched(db, scope, po, ids) then Err(OtherPos)
    else
      var db' := CancelAll(db, scope, ids);
      Ok(db'.(pos := Refresh(db'.pos, po)))
  }

  /** `n` consecutive ids. */
  function Numbered(first: nat, n: nat): seq<nat> {
    if n == 0 then [] else Numbered(first, n - 1) + [first + n - 1]
  }

  // ---------- The handlers as the source writes them ----------

  class Desk {
    var pos: map<nat, Po>
    var receipts: map<nat, Receipt>
    var inventory: map<Place, int>
    var bins: map<nat, nat>
    var nextId: nat

    function State(): Db
      reads this
    {
      Db(pos, receipts, inventory, bins, nextId)
    }

    method Rollback(saved: Db)
      modifies this
      ensures State() == saved
    {
      pos, receipts, inventory, bins, nextId := saved.pos, saved.receipts, saved.inventory, saved.bins, saved.nextId;
    }

    method ReceiveItems(scope: Scope, po: nat, entries: seq<Entry>, allowOver: bool) returns (reply: Result<seq<nat>>)
      modifies this
      ensures match Receive(old(State()), scope, po, entries, allowOver)
        case Err(error) => reply == Err(error) && State() == old(State())
        case Ok(db') => State() == db' && reply == Ok(Numbered(old(nextId), |entries|))
    {
      if po !in pos || !InScope(scope, pos[po].warehouse) { return Err(PoNotFound); }
      if pos[po].status !in {Open, Partial} { return Err(NotReceivable); }
      reply := ReceiveEntries(po, entries, allowOver);
      if reply.Ok? {
        var status := if forall i :: i in pos[po].lines ==> pos[po].lines[i].status == LineReceived then Received else Partial;
        pos := pos[po := pos[po].(status := status)];
      }
    }

    /** The per-item loop; an error rolls back. */
    method ReceiveEntries(po: nat, entries: seq<Entry>, allowOver: bool) returns (reply: Result<seq<nat>>)
      requires po in pos
      modifies this
      ensures match ReceiveAll(old(State()), po, entries, allowOver)
        case Err(error) => reply == Err(error) && State() == old(State())
        case Ok(db') => State() == db' && reply == Ok(Numbered(old(nextId), |entries|))
    {
      var saved := State();
      var ids: seq<nat> := [];
      var validBins: set<nat> := {};
      for n := 0 to |entries|
        invariant ReceiveAll(saved, po, entries[..n], allowOver) == Ok(State())
        invariant po in pos && Validated(validBins, po)
        invariant ids == Numbered(saved.nextId, n) && nextId == saved.nextId + n
      {
        AllButLast(saved, po, entries, n, allowOver);
        var id := nextId;
        NumberedSnoc(saved.nextId, ids, n, id);
        var error;
        error, validBins := ReceiveEntry(po, entries[n], validBins, allowOver);
        if error.Some? {
          FirstErrorWins(saved, po, entries, n, allowOver);
          Rollback(saved);
          return Err(error.value);
        }
        ids := ids + [id];
      }
      assert entries[..|entries|] == entries;
      return Ok(ids);
    }

    /** One turn of the loop: the checks of an entry and, if they pass, its writes. */
    method ReceiveEntry(po: nat, e: Entry, validBins: set<nat>, allowOver: bool) returns (error: Option<Error>, validBins': set<nat>)
      requires po in pos && Validated(validBins, po)
      modifies this
      ensures match ReceiveOne(old(State()), po, e, allowOver)
        case Err(why) => error == Some(why) && State() == old(State())
        case Ok(db') => error == None && State() == db' && po in pos && Validated(validBins', po) && nextId == old(nextId) + 1
    {
      error, validBins' := CheckEntry(po, e, validBins, allowOver);
      if error.None? {
        TakeIn(po, e, allowOver);
      }
    }

    /** The request's memo holds only bins of the order's warehouse. */
    ghost predicate Validated(validBins: set<nat>, po: nat)
      reads this
    {
      po in pos && forall b :: b in validBins ==> b in bins && bins[b] == pos[po].warehouse
    }

    /** Bin, line and over-receipt checks of one entry; valid bins are remembered for the request. */
    method CheckEntry(po: nat, e: Entry, validBins: set<nat>, allowOver: bool) returns (error: Option<Error>, validBins': set<nat>)
      requires po in pos && Validated(validBins, po)
      ensures Validated(validBins', po)
      ensures match ReceiveOne(State(), po, e, allowOver)
        case Err(why) => error == Some(why)
        case Ok(_) => error == None
    {
      validBins' := validBins;
      if e.bin !in validBins {
        if e.bin !in bins { return Some(BinNotFound), validBins'; }
        if bins[e.bin] != pos[po].warehouse { return Some(BinElsewhere), validBins'; }
        validBins' := validBins + {e.bin};
      }
      if e.item !in pos[po].lines { return Some(ItemNotOnPo), validBins'; }
      var remaining := pos[po].lines[e.item].ordered - pos[po].lines[e.item].received;
      if e.qty > remaining && !allowOver { return Some(OverReceipt), validBins'; }
      return None, validBins';
    }

    /** Receipt row, line and stock of one accepted entry. */
    method TakeIn(po: nat, e: Entry, ghost allowOver: bool)
      requires po in pos && ReceiveOne(State(), po, e, allowOver).Ok?
      modifies this
      ensures Ok(State()) == ReceiveOne(old(State()), po, e, allowOver)
      ensures po in pos && pos[po].warehouse == old(pos[po].warehouse) && bins == old(bins) && nextId == old(nextId) + 1
    {
      receipts := receipts[nextId := Receipt(Some(po), e.item, e.qty, e.bin, pos[po].warehouse)];
      nextId := nextId + 1;
      var line := pos[po].lines[e.item];
      var received := line.received + e.qty;
      var status := if received >= line.ordered then LineReceived else LinePartial;
      pos := pos[po := pos[po].(lines := pos[po].lines[e.item := line.(received := received, status := status)])];
      if (e.item, e.bin) in inventory {
        inventory := inventory[(e.item, e.bin) := inventory[(e.item, e.bin)] + e.qty];
      } else {
        inventory := inventory[(e.item, e.bin) := e.qty];
      }
    }

    method CancelReceiving(scope: Scope, po: nat, ids: seq<nat>) returns (reply: Result<nat>)
      modifies this
      ensures match Cancel(old(State()), scope, po, ids)
        case Err(error) => reply == Err(error) && State() == old(State())
        case Ok(db') => State() == db' && reply.Ok? && reply.value == old(|receipts|) - |receipts|
    {
      if ids == [] { return Ok(0); }
      if Mismatched(State(), scope, po, ids) { return Err(OtherPos); }
      var saved := State();
      var reversed := 0;
      var touched := {po};
      for n := 0 to |ids|
        invariant State() == CancelAll(saved, scope, ids[..n])
        invariant touched == {po}
        invariant forall id :: id in receipts ==> id in saved.receipts && receipts[id] == saved.receipts[id]
        invariant reversed == |saved.receipts| - |receipts|
      {
        var id := ids[n];
        assert ids[..n + 1][..n] == ids[..n];
        if id in receipts && InScope(scope, receipts[id].warehouse) {
          var r := receipts[id];
          assert Reversible(saved, scope, id);
          if r.po.Some? { touched := touched + {r.po.value}; }
          inventory := ReverseStock(inventory, r);
          pos := ReverseLine(pos, r);
          assert receipts == (receipts - {id})[id := r];
          receipts := receipts - {id};
          reversed := reversed + 1;
        }
      }
      assert ids[..|ids|] == ids;
      ghost var swept := CancelAll(saved, scope, ids);
      while touched != {}
        invariant touched <= {po}
        invariant State() == swept.(pos := if touched == {} then Refresh(swept.pos, po) else swept.pos)
        decreases |touched|
      {
        var p :| p in touched;
        touched := touched - {p};
        assert touched == {};
        if p in pos { pos := pos[p := pos[p].(status := PoStatusOf(pos[p].lines))]; }
      }
      return Ok(reversed);
    }
  }

  lemma NumberedSnoc(first: nat, ids: seq<nat>, n: nat, id: nat)
    requires ids == Numbered(first, n) && id == first + n
    ensures ids + [id] == Numbered(first, n + 1)
  {
  }

  /** The entries up to and with the n-th: one more turn of the loop. */
  lemma AllButLast(db: Db, po: nat, entries: seq<Entry>, n: nat, allowOver: bool)
    requires po in db.pos && n < |entries| && ReceiveAll(db, po, entries[..n], allowOver).Ok?
    ensures ReceiveAll(db, po, entries[..n + 1], allowOver)
         == ReceiveOne(ReceiveAll(db, po, entries[..n], allowOver).value, po, entries[n], allowOver)
  {
    assert entries[..n + 1][..n] == entries[..n];
  }

  /** An entry that fails fails the whole request. */
  lemma {:induction false} FirstErrorWins(db: Db, po: nat, entries: seq<Entry>, n: nat, allowOver: bool)
    requires po in db.pos && n < |entries| && ReceiveAll(db, po, entries[..n + 1], allowOver).Err?
    ensures ReceiveAll(db, po, entries, allowOver) == ReceiveAll(db, po, entries[..n + 1], allowOver)
    decreases |entries|
  {
    if n + 1 == |entries| {
      assert entries[..n + 1] == entries;
    } else {
      var m := |entries| - 1;
      assert entries[..m][..n + 1] == entries[..n + 1];
      FirstErrorWins(db, po, entries[..m], n, allowOver);
    }
  }
}
