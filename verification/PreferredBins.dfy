// An item's preferred bins in api/routes/putaway.py: set-as-primary bumps every
// priority and puts one bin on 1; put-away suggests the first bin in the user's warehouses.

module PreferredBins {
  import opened Wrappers

  /** preferred_bins rows of one item: priority by bin. */
  type Ranks = map<nat, int>

  datatype Bin = Bin(warehouse: nat, pickable: bool)
  datatype Scope = Admin | Only(warehouses: set<nat>)
  datatype Reply = Updated | ItemNotFound | BinNotFound | NotPickable | Forbidden

  predicate InScope(scope: Scope, warehouse: nat) {
    scope.Admin? || warehouse in scope.warehouses
  }

  function Bump(ranks: Ranks): Ranks {
    map b | b in ranks :: ranks[b] + 1
  }

  function Promote(ranks: Ranks, bin: nat): Ranks {
    Bump(ranks)[bin := 1]
  }

  datatype Item = Item(ranks: Ranks, default: Option<nat>)

  datatype Db = Db(items: map<nat, Item>, bins: map<nat, Bin>)

  function UpdatePreferred(db: Db, scope: Scope, item: nat, bin: nat, setAsPrimary: bool): (Db, Reply) {
    if item !in db.items then (db, ItemNotFound)
    else if bin !in db.bins then (db, BinNotFound)
    else if !db.bins[bin].pickable then (db, NotPickable)
    else if !InScope(scope, db.bins[bin].warehouse) then (db, Forbidden)
    else if !setAsPrimary then (db, Updated)
    else (db.(items := db.items[item := Item(Promote(db.items[item].ranks, bin), Some(bin))]), Updated)
  }

  predicate Visible(db: Db, scope: Scope, bin: nat) {
    bin in db.bins && InScope(scope, db.bins[bin].warehouse)
  }

  class PutAway {
    var items: map<nat, Item>
    var bins: map<nat, Bin>

    function State(): Db
      reads this
    {
      Db(items, bins)
    }

    method Update(scope: Scope, item: nat, bin: nat, setAsPrimary: bool) returns (reply: Reply)
      modifies this`items
      ensures (State(), reply) == UpdatePreferred(old(State()), scope, item, bin, setAsPrimary)
    {
      if item !in items { return ItemNotFound; }
      if bin !in bins { return BinNotFound; }
      if !bins[bin].pickable { return NotPickable; }
      if !InScope(scope, bins[bin].warehouse) { return Forbidden; }
      if setAsPrimary {
        ghost var before := items;
        items := items[item := items[item].(ranks := Bump(items[item].ranks))];
        // Updates the bin's row or inserts one.
        items := items[item := items[item].(ranks := items[item].ranks[bin := 1])];
        items := items[item := items[item].(default := Some(bin))];
        assert items == before[item := items[item]];
      }
      return Updated;
    }

    /** ORDER BY priority LIMIT 1 over the visible rows, else the item's default bin if visible. */
    method SuggestBin(scope: Scope, item: nat) returns (bin: Option<nat>)
      requires item in items ==> DistinctRanks(items[item].ranks)
      ensures bin == if item in items then Suggestion(State(), scope, items[item]) else None
      ensures bin.Some? ==> Visible(State(), scope, bin.value)
    {
      if item !in items { return None; }
      var ranks := items[item].ranks;
      bin := None;
      var todo := ranks.Keys;
      while todo != {}
        invariant todo <= ranks.Keys
        invariant bin.Some? ==> bin.value in ranks && bin.value !in todo && Visible(State(), scope, bin.value)
        invariant forall b :: b in ranks && b !in todo && Visible(State(), scope, b) ==> bin.Some? && ranks[bin.value] <= ranks[b]
        decreases todo
      {
        var b :| b in todo;
        todo := todo - {b};
        if Visible(State(), scope, b) && (bin.None? || ranks[b] < ranks[bin.value]) { bin := Some(b); }
      }
      if bin.None? && items[item].default.Some? && Visible(State(), scope, items[item].default.value) {
        bin := items[item].default;
      }
      if exists b :: b in ranks && Visible(State(), scope, b) { BestIsUnique(State(), scope, ranks, bin.value); }
    }
  }

  // ---------- Suggestion ----------

  /** UNIQUE(item_id, priority). */
  predicate DistinctRanks(ranks: Ranks) {
    forall a, b :: a in ranks && b in ranks && a != b ==> ranks[a] != ranks[b]
  }

  predicate IsBestAmong(db: Db, scope: Scope, ranks: Ranks, among: set<nat>, bin: nat)
    requires among <= ranks.Keys
  {
    bin in among && Visible(db, scope, bin) && forall b :: b in among && Visible(db, scope, b) ==> ranks[bin] <= ranks[b]
  }

  predicate IsBest(db: Db, scope: Scope, ranks: Ranks, bin: nat) {
    IsBestAmong(db, scope, ranks, ranks.Keys, bin)
  }

  ghost function Suggestion(db: Db, scope: Scope, item: Item): Option<nat> {
    if exists b :: b in item.ranks && Visible(db, scope, b) then
      BestExists(db, scope, item.ranks, item.ranks.Keys);
      var b :| IsBestAmong(db, scope, item.ranks, item.ranks.Keys, b);
      Some(b)
    else if item.default.Some? && Visible(db, scope, item.default.value) then item.default
    else None
  }

  lemma {:induction false} BestExists(db: Db, scope: Scope, ranks: Ranks, among: set<nat>)
    requires among <= ranks.Keys && exists b :: b in among && Visible(db, scope, b)
    ensures exists b :: IsBestAmong(db, scope, ranks, among, b)
    decreases among
  {
    var b :| b in among && Visible(db, scope, b);
    var rest := among - {b};
    if exists c :: c in rest && Visible(db, scope, c) {
      BestExists(db, scope, ranks, rest);
      var c :| IsBestAmong(db, scope, ranks, rest, c);
      assert IsBestAmong(db, scope, ranks, among, if ranks[b] <= ranks[c] then b else c);
    } else {
      assert IsBestAmong(db, scope, ranks, among, b);
    }
  }

  lemma BestIsUnique(db: Db, scope: Scope, ranks: Ranks, bin: nat)
    requires DistinctRanks(ranks) && IsBest(db, scope, ranks, bin)
    ensures forall b :: IsBest(db, scope, ranks, b) ==> b == bin
  {
  }

  // ---------- Move to front ----------

  predicate Before(ranks: Ranks, a: nat, b: nat) {
    a in ranks && b in ranks && ranks[a] < ranks[b]
  }

  /** Each bin ranks before all later ones. */
  ghost predicate Rising(list: seq<nat>, ranks: Ranks) {
    list == [] || ((forall b :: b in list[1..] ==> Before(ranks, list[0], b)) && Rising(list[1..], ranks))
  }

  /** The item's bins by ascending priority. */
  ghost predicate InOrder(list: seq<nat>, ranks: Ranks) {
    (forall b :: b in list <==> b in ranks) && Rising(list, ranks)
  }

  function Without(list: seq<nat>, bin: nat): seq<nat> {
    if list == [] then []
    else if list[0] == bin then Without(list[1..], bin)
    else [list[0]] + Without(list[1..], bin)
  }

  function MoveToFront(list: seq<nat>, bin: nat): seq<nat> {
    [bin] + Without(list, bin)
  }

  lemma {:induction false} InWithout(list: seq<nat>, bin: nat, b: nat)
    ensures b in Without(list, bin) <==> b in list && b != bin
  {
    if list != [] {
      InWithout(list[1..], bin, b);
      assert b in list <==> b == list[0] || b in list[1..];
    }
  }

  lemma {:induction false} WithoutRises(list: seq<nat>, bin: nat, ranks: Ranks)
    requires Rising(list, ranks)
    ensures Rising(Without(list, bin), ranks)
  {
    if list != [] {
      WithoutRises(list[1..], bin, ranks);
      var rest := Without(list[1..], bin);
      forall b | b in rest ensures Before(ranks, list[0], b) {
        InWithout(list[1..], bin, b);
      }
      assert ([list[0]] + rest)[1..] == rest;
    }
  }

  /** Raising every priority by one keeps the order. */
  lemma {:induction false} BumpRises(list: seq<nat>, ranks: Ranks, ranks': Ranks)
    requires Rising(list, ranks) && forall b :: b in list ==> b in ranks && b in ranks' && ranks'[b] == ranks[b] + 1
    ensures Rising(list, ranks')
  {
    if list != [] {
      BumpRises(list[1..], ranks, ranks');
      forall b | b in list[1..] ensures Before(ranks', list[0], b) {
        assert Before(ranks, list[0], b);
      }
    }
  }

  ghost predicate Positive(ranks: Ranks) {
    forall b :: b in ranks ==> 1 <= ranks[b]
  }

  /** One promotion is one move to front: the other bins keep their order, and 1 is given once. */
  lemma PromoteMovesToFront(list: seq<nat>, ranks: Ranks, bin: nat)
    requires InOrder(list, ranks) && Positive(ranks)
    ensures InOrder(MoveToFront(list, bin), Promote(ranks, bin)) && Positive(Promote(ranks, bin))
    ensures forall b :: b in Promote(ranks, bin) ==> (Promote(ranks, bin)[b] == 1 <==> b == bin)
  {
    var rest, ranks' := Without(list, bin), Promote(ranks, bin);
    forall b ensures b in rest <==> b in ranks && b != bin {
      InWithout(list, bin, b);
    }
    WithoutRises(list, bin, ranks);
    BumpRises(rest, ranks, ranks');
    assert MoveToFront(list, bin)[1..] == rest;
    assert forall b :: b in MoveToFront(list, bin) <==> b == bin || b in rest;
  }

  // ---------- Histories ----------

  datatype Call = Call(scope: Scope, item: nat, bin: nat, setAsPrimary: bool)

  function Run(db: Db, calls: seq<Call>): Db {
    if calls == [] then db
    else
      var c := calls[|calls| - 1];
      UpdatePreferred(Run(db, calls[..|calls| - 1]), c.scope, c.item, c.bin, c.setAsPrimary).0
  }

  /** An accepted set-as-primary call for the item. */
  predicate Promotes(db: Db, c: Call, item: nat) {
    && c.item == item && c.setAsPrimary && item in db.items
    && c.bin in db.bins && db.bins[c.bin].pickable && InScope(c.scope, db.bins[c.bin].warehouse)
  }

  lemma CallEffect(db: Db, c: Call, item: nat)
    requires item in db.items
    ensures var db' := UpdatePreferred(db, c.scope, c.item, c.bin, c.setAsPrimary).0;
      && db'.bins == db.bins && db'.items.Keys == db.items.Keys
      && db'.items[item] == if Promotes(db, c, item) then Item(Promote(db.items[item].ranks, c.bin), Some(c.bin)) else db.items[item]
  {
  }

  /** The accepted set-as-primary calls of one item, oldest first. */
  function Promotions(db: Db, calls: seq<Call>, item: nat): seq<nat> {
    if calls == [] then []
    else
      var c := calls[|calls| - 1];
      var earlier := Promotions(db, calls[..|calls| - 1], item);
      if Promotes(db, c, item) then earlier + [c.bin] else earlier
  }

  /** The bins promoted, latest promotion first, each once. */
  function Recency(promoted: seq<nat>): seq<nat> {
    if promoted == [] then [] else MoveToFront(Recency(promoted[..|promoted| - 1]), promoted[|promoted| - 1])
  }

  function WithoutAll(list: seq<nat>, promoted: seq<nat>): seq<nat> {
    if promoted == [] then list else Without(WithoutAll(list, promoted[..|promoted| - 1]), promoted[|promoted| - 1])
  }

  lemma {:induction false} WithoutConcat(a: seq<nat>, b: seq<nat>, bin: nat)
    ensures Without(a + b, bin) == Without(a, bin) + Without(b, bin)
  {
    if a == [] {
      assert a + b == b;
    } else {
      WithoutConcat(a[1..], b, bin);
      assert (a + b)[1..] == a[1..] + b;
    }
  }

  /** The item after these promotions, from a start in the order of `list`. */
  ghost predicate Follows(start: Item, list: seq<nat>, promoted: seq<nat>, now: Item) {
    && InOrder(Recency(promoted) + WithoutAll(list, promoted), now.ranks) && Positive(now.ranks)
    && (promoted == [] ==> now == start)
    && (promoted != [] ==> now.default == Some(promoted[|promoted| - 1]) && OnlyFirst(now.ranks, promoted[|promoted| - 1]))
  }

  ghost predicate OnlyFirst(ranks: Ranks, bin: nat) {
    forall b :: b in ranks ==> (ranks[b] == 1 <==> b == bin)
  }

  lemma PromotionFollows(start: Item, list: seq<nat>, promoted: seq<nat>, now: Item, bin: nat)
    requires Follows(start, list, promoted, now)
    ensures Follows(start, list, promoted + [bin], Item(Promote(now.ranks, bin), Some(bin)))
  {
    var more := promoted + [bin];
    assert more[..|promoted|] == promoted;
    var order := Recency(promoted) + WithoutAll(list, promoted);
    PromoteMovesToFront(order, now.ranks, bin);
    WithoutConcat(Recency(promoted), WithoutAll(list, promoted), bin);
    assert MoveToFront(order, bin) == Recency(more) + WithoutAll(list, more);
  }

  /**
   * Over any history of calls the item's bins by priority are: the promoted ones, latest
   * first, then all others in their old order; and the latest one alone has priority 1.
   */
  lemma {:induction false} HistoryIsMoveToFront(db: Db, calls: seq<Call>, item: nat, list: seq<nat>)
    requires item in db.items && InOrder(list, db.items[item].ranks) && Positive(db.items[item].ranks)
    ensures var db' := Run(db, calls);
      && db'.bins == db.bins && db'.items.Keys == db.items.Keys
      && Follows(db.items[item], list, Promotions(db, calls, item), db'.items[item])
  {
    if calls == [] {
      assert [] + list == list;
    } else {
      var n := |calls| - 1;
      HistoryIsMoveToFront(db, calls[..n], item, list);
      var before, promoted := Run(db, calls[..n]), Promotions(db, calls[..n], item);
      assert Promotes(db, calls[n], item) == Promotes(before, calls[n], item);
      CallEffect(before, calls[n], item);
      if Promotes(db, calls[n], item) {
        PromotionFollows(db.items[item], list, promoted, before.items[item], calls[n].bin);
      }
    }
  }

  function FirstVisible(db: Db, scope: Scope, list: seq<nat>): Option<nat> {
    if list == [] then None else if Visible(db, scope, list[0]) then Some(list[0]) else FirstVisible(db, scope, list[1..])
  }

  lemma {:induction false} FirstVisibleIsBest(db: Db, scope: Scope, list: seq<nat>, ranks: Ranks)
    requires Rising(list, ranks) && (forall b :: b in list ==> b in ranks)
    ensures match FirstVisible(db, scope, list)
      case None => forall b :: b in list ==> !Visible(db, scope, b)
      case Some(bin) => bin in list && Visible(db, scope, bin) && forall b :: b in list && Visible(db, scope, b) ==> ranks[bin] <= ranks[b]
  {
    if list != [] {
      FirstVisibleIsBest(db, scope, list[1..], ranks);
      assert forall b :: b in list <==> b == list[0] || b in list[1..];
      assert forall b :: b in list[1..] ==> Before(ranks, list[0], b);
    }
  }

  /**
   * What put-away suggests after any history with a promotion: the first bin of the
   * move-to-front list the user may see, so the most recently promoted one among the user's
   * warehouses if there is any. The default bin adds nothing then: it heads that list.
   */
  lemma SuggestsMostRecentlyPromoted(db: Db, calls: seq<Call>, item: nat, list: seq<nat>, scope: Scope)
    requires item in db.items && InOrder(list, db.items[item].ranks) && Positive(db.items[item].ranks)
    requires Promotions(db, calls, item) != []
    ensures var promoted := Promotions(db, calls, item); var db' := Run(db, calls);
      && item in db'.items && DistinctRanks(db'.items[item].ranks)
      && Suggestion(db', scope, db'.items[item]) == FirstVisible(db', scope, Recency(promoted) + WithoutAll(list, promoted))
  {
    HistoryIsMoveToFront(db, calls, item, list);
    var promoted := Promotions(db, calls, item);
    var db' := Run(db, calls);
    var order, ranks := Recency(promoted) + WithoutAll(list, promoted), db'.items[item].ranks;
    OrderIsDistinct(order, ranks);
    FirstVisibleIsBest(db', scope, order, ranks);
    var first := FirstVisible(db', scope, order);
    if first.Some? {
      BestIsUnique(db', scope, ranks, first.value);
    } else {
      assert order[0] == promoted[|promoted| - 1];
    }
  }

  lemma OrderIsDistinct(list: seq<nat>, ranks: Ranks)
    requires InOrder(list, ranks)
    ensures DistinctRanks(ranks)
  {
    forall a, b | a in ranks && b in ranks && a != b ensures ranks[a] != ranks[b] {
      RisingIsDistinct(list, ranks, a, b);
    }
  }

  lemma {:induction false} RisingIsDistinct(list: seq<nat>, ranks: Ranks, a: nat, b: nat)
    requires Rising(list, ranks) && a in list && b in list && a != b
    ensures Before(ranks, a, b) || Before(ranks, b, a)
  {
    if a != list[0] && b != list[0] { RisingIsDistinct(list[1..], ranks, a, b); }
  }
}
