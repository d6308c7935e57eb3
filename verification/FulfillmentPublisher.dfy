/**
 What `ShopifyFulfillmentPublisher.publish` decides from one order lookup
 (src/fulfillment/shopify-publisher.ts): which existing fulfilment it recovers, or how it
 spreads the requested lines over the open fulfilment orders, or why it refuses.
 */
module FulfillmentPublisher {
  import opened Lease

  type LineId = string
  type Requested = map<LineId, int>

  datatype OrderItem = OrderItem(id: string, remaining: int, lineId: LineId)
  datatype FulfillmentOrder = FulfillmentOrder(id: string, items: seq<OrderItem>)

  /** The source sends `item.id`; the item itself is kept so that its line is known. */
  datatype GroupItem = GroupItem(item: OrderItem, quantity: int)
  datatype Group = Group(orderId: string, items: seq<GroupItem>)

  datatype Allocation = Allocated(groups: seq<Group>) | QuantityExceedsRemaining | LineNotFound

  function Flat(orders: seq<FulfillmentOrder>): seq<OrderItem> {
    if orders == [] then [] else Flat(orders[..|orders| - 1]) + orders[|orders| - 1].items
  }

  function FlatGroups(groups: seq<Group>): seq<GroupItem> {
    if groups == [] then [] else FlatGroups(groups[..|groups| - 1]) + groups[|groups| - 1].items
  }

  function Lines(items: seq<OrderItem>): set<LineId> {
    set x | x in items :: x.lineId
  }

  /** `if (quantity)` on the result of the map lookup: absent and zero are the same. */
  predicate Wanted(requested: Requested, line: LineId) {
    line in requested && requested[line] != 0
  }

  /** items[k] is the first item of its line after the lines in `seen`. */
  predicate FirstOf(items: seq<OrderItem>, k: nat, seen: set<LineId>)
    requires k < |items|
  {
    items[k].lineId !in seen && items[k].lineId !in Lines(items[..k])
  }

  predicate ShortAt(items: seq<OrderItem>, k: nat, seen: set<LineId>, requested: Requested)
    requires k < |items|
  {
    FirstOf(items, k, seen) && Wanted(requested, items[k].lineId) && requested[items[k].lineId] > items[k].remaining
  }

  ghost predicate SomeShort(items: seq<OrderItem>, requested: Requested) {
    exists k: nat :: k < |items| && ShortAt(items, k, {}, requested)
  }

  ghost predicate SomeMissing(items: seq<OrderItem>, requested: Requested) {
    exists line :: line in requested && (requested[line] == 0 || line !in Lines(items))
  }

  /** The first item of every wanted line, with the full requested quantity. */
  function PicksIn(items: seq<OrderItem>, seen: set<LineId>, requested: Requested): seq<GroupItem> {
    if items == [] then []
    else
      var n := |items| - 1;
      PicksIn(items[..n], seen, requested) + PickAt(items, n, seen, requested)
  }

  function PickAt(items: seq<OrderItem>, k: nat, seen: set<LineId>, requested: Requested): seq<GroupItem>
    requires k < |items|
  {
    if FirstOf(items, k, seen) && Wanted(requested, items[k].lineId)
    then [GroupItem(items[k], requested[items[k].lineId])] else []
  }

  function GroupsOf(orders: seq<FulfillmentOrder>, requested: Requested): seq<Group> {
    if orders == [] then []
    else
      var n := |orders| - 1;
      var picks := PicksIn(orders[n].items, Lines(Flat(orders[..n])), requested);
      GroupsOf(orders[..n], requested) + if picks == [] then [] else [Group(orders[n].id, picks)]
  }

  /** What is left in `wanted` once the lines in `seen` have gone by. */
  function Left(requested: Requested, seen: set<LineId>): Requested {
    map line | line in requested && (requested[line] == 0 || line !in seen) :: requested[line]
  }

  method Allocate(orders: seq<FulfillmentOrder>, requested: Requested) returns (r: Allocation)
    ensures r.QuantityExceedsRemaining? <==> SomeShort(Flat(orders), requested)
    ensures r.LineNotFound? <==> !SomeShort(Flat(orders), requested) && SomeMissing(Flat(orders), requested)
    ensures r.Allocated? ==> r.groups == GroupsOf(orders, requested) && Placed(orders, r.groups)
  {
    var wanted, groups := requested, [];
    for o := 0 to |orders|
      invariant wanted == Left(requested, Lines(Flat(orders[..o])))
      invariant groups == GroupsOf(orders[..o], requested)
      invariant !SomeShort(Flat(orders[..o]), requested)
    {
      ghost var seen := Lines(Flat(orders[..o]));
      var short, picked;
      short, picked, wanted := AllocateOrder(orders[o].items, seen, requested, wanted);
      if short {
        ghost var k: nat :| k < |orders[o].items| && ShortAt(orders[o].items, k, seen, requested);
        ShortFound(orders, o, k, requested);
        return QuantityExceedsRemaining;
      }
      assert orders[..o + 1][..o] == orders[..o];
      NoShortAppend(orders, o, requested);
      groups := groups + if picked != [] then [Group(orders[o].id, picked)] else [];
    }
    assert orders[..|orders|] == orders;
    if wanted != map[] {
      ghost var line :| line in wanted;
      assert line in requested && (requested[line] == 0 || line !in Lines(Flat(orders)));
      return LineNotFound;
    }
    assert forall line :: line in requested ==> line !in Left(requested, Lines(Flat(orders)));
    GroupsArePlaced(orders, requested);
    return Allocated(groups);
  }

  /** The inner loop, over the items of one fulfilment order. */
  method AllocateOrder(items: seq<OrderItem>, ghost seen: set<LineId>, ghost requested: Requested, before: Requested)
    returns (short: bool, picked: seq<GroupItem>, wanted: Requested)
    requires before == Left(requested, seen)
    ensures short <==> exists k: nat :: k < |items| && ShortAt(items, k, seen, requested)
    ensures !short ==> picked == PicksIn(items, seen, requested) && wanted == Left(requested, seen + Lines(items))
  {
    short, picked, wanted := false, [], before;
    assert seen + Lines(items[..0]) == seen;
    assert PicksIn(items[..0], seen, requested) == [];
    hide PicksIn, Left, Lines, FirstOf, Wanted;
    for k := 0 to |items|
      invariant wanted == Left(requested, seen + Lines(items[..k]))
      invariant picked == PicksIn(items[..k], seen, requested)
      invariant forall i: nat :: i < k ==> !ShortAt(items, i, seen, requested)
    {
      var item := items[k];
      LeftStep(items, k, seen, requested);
      PicksStep(items, k, seen, requested);
      ShortMeans(items, k, seen, requested);
      if item.lineId in wanted && wanted[item.lineId] != 0 {
        var quantity := wanted[item.lineId];
        if quantity > item.remaining {
          assert ShortAt(items, k, seen, requested);
          return true, picked, wanted;
        }
        picked := picked + [GroupItem(item, quantity)];
        wanted := wanted - {item.lineId};
      }
    }
    assert items[..|items|] == items;
  }

  /** The item is taken: its line is wanted and this is the line's first item. */
  predicate Taken(items: seq<OrderItem>, k: nat, seen: set<LineId>, requested: Requested)
    requires k < |items|
  {
    FirstOf(items, k, seen) && Wanted(requested, items[k].lineId)
  }

  lemma ShortMeans(items: seq<OrderItem>, k: nat, seen: set<LineId>, requested: Requested)
    requires k < |items|
    ensures Taken(items, k, seen, requested) ==> items[k].lineId in requested
    ensures ShortAt(items, k, seen, requested)
            <==> Taken(items, k, seen, requested) && items[k].lineId in requested && requested[items[k].lineId] > items[k].remaining
  {
  }

  lemma PicksStep(items: seq<OrderItem>, k: nat, seen: set<LineId>, requested: Requested)
    requires k < |items|
    ensures Taken(items, k, seen, requested) ==> items[k].lineId in requested
    ensures PicksIn(items[..k + 1], seen, requested)
            == PicksIn(items[..k], seen, requested)
               + if Taken(items, k, seen, requested) then [GroupItem(items[k], requested[items[k].lineId])] else []
  {
    var longer := items[..k + 1];
    assert longer[..k] == items[..k] && longer[k] == items[k];
    PicksUnfold(longer, seen, requested);
    hide PicksIn, Lines;
    assert FirstOf(longer, k, seen) == FirstOf(items, k, seen);
  }

  lemma LeftStep(items: seq<OrderItem>, k: nat, seen: set<LineId>, requested: Requested)
    requires k < |items|
    ensures var line, left := items[k].lineId, Left(requested, seen + Lines(items[..k]));
            && (line in left && left[line] != 0 <==> Taken(items, k, seen, requested))
            && (line in left ==> line in requested && left[line] == requested[line])
            && Left(requested, seen + Lines(items[..k + 1])) == if Taken(items, k, seen, requested) then left - {line} else left
  {
    assert items[..k + 1] == items[..k] + [items[k]];
    LinesAppend(items[..k], [items[k]]);
    assert Lines([items[k]]) == {items[k].lineId} by { assert items[k] in [items[k]]; }
    var lines := Lines(items[..k]);
    assert seen + Lines(items[..k + 1]) == seen + lines + {items[k].lineId};
    hide Lines;
    LeftNext(requested, seen + lines, items[k].lineId);
  }

  lemma LeftNext(requested: Requested, seen: set<LineId>, line: LineId)
    ensures var left := Left(requested, seen);
            && (line in left && left[line] != 0 <==> line !in seen && Wanted(requested, line))
            && Left(requested, seen + {line}) == if line !in seen && Wanted(requested, line) then left - {line} else left
  {
  }

  lemma LinesAppend(a: seq<OrderItem>, b: seq<OrderItem>)
    ensures Lines(a + b) == Lines(a) + Lines(b)
  {
  }

  /** Positions of one order inside the flattened list. */
  lemma InsideFlat(orders: seq<FulfillmentOrder>, o: nat, k: nat, requested: Requested)
    requires o < |orders| && k < |orders[o].items|
    ensures var before := Flat(orders[..o]);
            var flat := Flat(orders[..o + 1]);
            && flat == before + orders[o].items
            && (ShortAt(flat, |before| + k, {}, requested) <==> ShortAt(orders[o].items, k, Lines(before), requested))
  {
    var before := Flat(orders[..o]);
    assert orders[..o + 1][..o] == orders[..o];
    var flat := before + orders[o].items;
    assert flat[..|before| + k] == before + orders[o].items[..k];
    LinesAppend(before, orders[o].items[..k]);
  }

  lemma {:induction false} FlatPrefix(orders: seq<FulfillmentOrder>, o: nat)
    requires o <= |orders|
    ensures Flat(orders[..o]) <= Flat(orders)
    decreases |orders| - o
  {
    if o < |orders| {
      FlatPrefix(orders, o + 1);
      assert orders[..o + 1][..o] == orders[..o];
    } else {
      assert orders[..o] == orders;
    }
  }

  lemma ShortFound(orders: seq<FulfillmentOrder>, o: nat, k: nat, requested: Requested)
    requires o < |orders| && k < |orders[o].items|
    requires ShortAt(orders[o].items, k, Lines(Flat(orders[..o])), requested)
    ensures SomeShort(Flat(orders), requested)
  {
    InsideFlat(orders, o, k, requested);
    FlatPrefix(orders, o + 1);
    var at := |Flat(orders[..o])| + k;
    assert Flat(orders)[..at] == Flat(orders[..o + 1])[..at];
    assert ShortAt(Flat(orders), at, {}, requested);
  }

  lemma NoShortAppend(orders: seq<FulfillmentOrder>, o: nat, requested: Requested)
    requires o < |orders| && !SomeShort(Flat(orders[..o]), requested)
    requires forall k: nat :: k < |orders[o].items| ==> !ShortAt(orders[o].items, k, Lines(Flat(orders[..o])), requested)
    ensures Flat(orders[..o + 1]) == Flat(orders[..o]) + orders[o].items
    ensures Lines(Flat(orders[..o + 1])) == Lines(Flat(orders[..o])) + Lines(orders[o].items)
    ensures !SomeShort(Flat(orders[..o + 1]), requested)
  {
    var before := Flat(orders[..o]);
    var flat := Flat(orders[..o + 1]);
    assert orders[..o + 1][..o] == orders[..o];
    assert flat == before + orders[o].items;
    LinesAppend(before, orders[o].items);
    forall k: nat | k < |flat| ensures !ShortAt(flat, k, {}, requested) {
      if k < |before| {
        assert flat[..k] == before[..k];
        assert !ShortAt(before, k, {}, requested);
      } else {
        InsideFlat(orders, o, k - |before|, requested);
      }
    }
  }

  // ---- which orders the groups are for ----

  /** Group i is for the order at at[i]: it names that order, is not empty and holds only that order's items. */
  predicate PlacedAt(orders: seq<FulfillmentOrder>, groups: seq<Group>, at: seq<nat>) {
    && |at| == |groups|
    && (forall i, j :: 0 <= i < j < |at| ==> at[i] < at[j])
    && forall i :: 0 <= i < |at| ==>
         && at[i] < |orders| && groups[i].orderId == orders[at[i]].id
         && groups[i].items != [] && forall p :: p in groups[i].items ==> p.item in orders[at[i]].items
  }

  /** Every group goes to one order, at most one group to each, in the orders' own order. */
  ghost predicate Placed(orders: seq<FulfillmentOrder>, groups: seq<Group>) {
    exists at: seq<nat> :: PlacedAt(orders, groups, at)
  }

  lemma {:induction false} PicksAreItems(items: seq<OrderItem>, seen: set<LineId>, requested: Requested)
    ensures forall p :: p in PicksIn(items, seen, requested) ==> p.item in items
  {
    if items != [] {
      PicksAreItems(items[..|items| - 1], seen, requested);
      PicksUnfold(items, seen, requested);
    }
  }

  lemma PlacedNext(orders: seq<FulfillmentOrder>, groups: seq<Group>, at: seq<nat>, group: Group)
    requires orders != [] && PlacedAt(orders[..|orders| - 1], groups, at)
    requires group.orderId == orders[|orders| - 1].id && group.items != []
    requires forall p :: p in group.items ==> p.item in orders[|orders| - 1].items
    ensures PlacedAt(orders, groups, at) && PlacedAt(orders, groups + [group], at + [|orders| - 1])
  {
  }

  lemma PlacedLonger(orders: seq<FulfillmentOrder>, groups: seq<Group>, at: seq<nat>)
    requires orders != [] && PlacedAt(orders[..|orders| - 1], groups, at)
    ensures PlacedAt(orders, groups, at)
  {
  }

  lemma PlacedWith(orders: seq<FulfillmentOrder>, groups: seq<Group>, picks: seq<GroupItem>)
    requires orders != [] && Placed(orders[..|orders| - 1], groups)
    requires forall p :: p in picks ==> p.item in orders[|orders| - 1].items
    ensures Placed(orders, if picks == [] then groups else groups + [Group(orders[|orders| - 1].id, picks)])
  {
    var at :| PlacedAt(orders[..|orders| - 1], groups, at);
    hide PlacedAt;
    if picks != [] {
      PlacedNext(orders, groups, at, Group(orders[|orders| - 1].id, picks));
    } else {
      PlacedLonger(orders, groups, at);
    }
  }

  lemma {:induction false} GroupsArePlaced(orders: seq<FulfillmentOrder>, requested: Requested)
    ensures Placed(orders, GroupsOf(orders, requested))
  {
    if orders == [] {
      assert PlacedAt(orders, [], []);
    } else {
      var n := |orders| - 1;
      hide PlacedAt, Placed, PicksIn, Lines, Flat;
      GroupsArePlaced(orders[..n], requested);
      PicksAreItems(orders[n].items, Lines(Flat(orders[..n])), requested);
      GroupsUnfold(orders, requested);
      hide GroupsOf;
      PlacedWith(orders, GroupsOf(orders[..n], requested), PicksIn(orders[n].items, Lines(Flat(orders[..n])), requested));
    }
  }

  lemma GroupsUnfold(orders: seq<FulfillmentOrder>, requested: Requested)
    requires orders != []
    ensures var n := |orders| - 1;
            var picks := PicksIn(orders[n].items, Lines(Flat(orders[..n])), requested);
            var before := GroupsOf(orders[..n], requested);
            GroupsOf(orders, requested) == if picks == [] then before else before + [Group(orders[n].id, picks)]
  {
  }

  // ---- what the groups hold ----

  lemma PicksUnfold(items: seq<OrderItem>, seen: set<LineId>, requested: Requested)
    requires items != []
    ensures var n := |items| - 1;
            PicksIn(items, seen, requested) == PicksIn(items[..n], seen, requested) + PickAt(items, n, seen, requested)
  {
  }

  lemma {:induction false} PicksAppend(a: seq<OrderItem>, b: seq<OrderItem>, requested: Requested)
    ensures PicksIn(a + b, {}, requested) == PicksIn(a, {}, requested) + PicksIn(b, Lines(a), requested)
    decreases |b|
  {
    if b == [] {
      assert a + b == a;
      AppendNil(PicksIn(a, {}, requested));
    } else {
      PicksAppend(a, b[..|b| - 1], requested);
      PicksAppendLast(a, b, requested);
    }
  }

  lemma PicksAppendLast(a: seq<OrderItem>, b: seq<OrderItem>, requested: Requested)
    requires b != []
    requires PicksIn(a + b[..|b| - 1], {}, requested) == PicksIn(a, {}, requested) + PicksIn(b[..|b| - 1], Lines(a), requested)
    ensures PicksIn(a + b, {}, requested) == PicksIn(a, {}, requested) + PicksIn(b, Lines(a), requested)
  {
    hide PicksIn, Lines, Wanted, FirstOf, PickAt;
    var n := |b| - 1;
    PicksUnfold(a + b, {}, requested);
    PicksUnfold(b, Lines(a), requested);
    PickAtAppend(a, b, n, requested);
    assert (a + b)[..|a| + n] == a + b[..n];
    AppendLast(PicksIn(a, {}, requested), PicksIn(b[..n], Lines(a), requested), PickAt(b, n, Lines(a), requested),
               PicksIn(b, Lines(a), requested), PicksIn(a + b, {}, requested));
  }

  lemma AppendNil<T>(x: seq<T>)
    ensures x + [] == x
  {
  }

  lemma AppendLast<T>(x: seq<T>, y: seq<T>, z: seq<T>, yz: seq<T>, xyz: seq<T>)
    requires yz == y + z && xyz == (x + y) + z
    ensures xyz == x + yz
  {
  }

  lemma PickAtAppend(a: seq<OrderItem>, b: seq<OrderItem>, n: nat, requested: Requested)
    requires n < |b|
    ensures PickAt(a + b, |a| + n, {}, requested) == PickAt(b, n, Lines(a), requested)
  {
    assert (a + b)[..|a| + n] == a + b[..n] && (a + b)[|a| + n] == b[n];
    LinesAppend(a, b[..n]);
  }

  lemma {:induction false} GroupsAreThePicks(orders: seq<FulfillmentOrder>, requested: Requested)
    ensures FlatGroups(GroupsOf(orders, requested)) == PicksIn(Flat(orders), {}, requested)
  {
    if orders != [] {
      var n := |orders| - 1;
      GroupsAreThePicks(orders[..n], requested);
      PicksAppend(Flat(orders[..n]), orders[n].items, requested);
      var picks := PicksIn(orders[n].items, Lines(Flat(orders[..n])), requested);
      var groups := GroupsOf(orders[..n], requested);
      if picks == [] {
        assert groups + [] == groups;
      } else {
        assert (groups + [Group(orders[n].id, picks)])[..|groups|] == groups;
      }
    }
  }

  /** A pick, seen from the flattened list. */
  ghost predicate IsFirstPick(items: seq<OrderItem>, requested: Requested, pick: GroupItem) {
    && Wanted(requested, pick.item.lineId) && pick.quantity == requested[pick.item.lineId]
    && exists k: nat :: k < |items| && FirstOf(items, k, {}) && items[k] == pick.item
  }

  ghost predicate PicksOk(items: seq<OrderItem>, requested: Requested, picks: seq<GroupItem>) {
    && (forall p :: p in picks ==> IsFirstPick(items, requested, p))
    && (forall i, j :: 0 <= i < j < |picks| ==> picks[i].item.lineId != picks[j].item.lineId)
    && (forall line :: line in Lines(items) && Wanted(requested, line) ==> exists p :: p in picks && p.item.lineId == line)
  }

  lemma FirstPickExtends(items: seq<OrderItem>, n: nat, requested: Requested, p: GroupItem)
    requires n <= |items| && IsFirstPick(items[..n], requested, p)
    ensures IsFirstPick(items, requested, p) && p.item.lineId in Lines(items[..n])
  {
    var k: nat :| k < n && FirstOf(items[..n], k, {}) && items[..n][k] == p.item;
    assert items[..n][..k] == items[..k];
    assert FirstOf(items, k, {}) && items[k] == p.item;
    assert p.item in items[..n];
  }

  lemma PicksGrow(items: seq<OrderItem>, requested: Requested, rest: seq<GroupItem>)
    requires items != [] && PicksOk(items[..|items| - 1], requested, rest)
    ensures PicksOk(items, requested, rest + PickAt(items, |items| - 1, {}, requested))
  {
    var n := |items| - 1;
    var picks := rest + PickAt(items, n, {}, requested);
    assert items == items[..n] + [items[n]];
    LinesAppend(items[..n], [items[n]]);
    forall p | p in rest ensures IsFirstPick(items, requested, p) && p.item.lineId in Lines(items[..n]) {
      FirstPickExtends(items, n, requested, p);
    }
    forall line | line in Lines(items) && Wanted(requested, line) ensures exists p :: p in picks && p.item.lineId == line {
      if line in Lines(items[..n]) {
        var p :| p in rest && p.item.lineId == line;
        assert p in picks;
      } else {
        assert line == items[n].lineId;
        assert GroupItem(items[n], requested[line]) in picks;
      }
    }
    forall i, j | 0 <= i < j < |picks| ensures picks[i].item.lineId != picks[j].item.lineId {
      assert picks[i] in rest;
    }
  }

  lemma {:induction false} PicksExact(items: seq<OrderItem>, requested: Requested)
    ensures PicksOk(items, requested, PicksIn(items, {}, requested))
  {
    if items != [] {
      PicksExact(items[..|items| - 1], requested);
      PicksUnfold(items, {}, requested);
      PicksGrow(items, requested, PicksIn(items[..|items| - 1], {}, requested));
    }
  }

  /** The lines a list of picks stands for. */
  function Delivered(picks: seq<GroupItem>): Requested {
    if picks == [] then map[]
    else Delivered(picks[..|picks| - 1])[picks[|picks| - 1].item.lineId := picks[|picks| - 1].quantity]
  }

  /** Every pick is in the map with its quantity, and nothing else is. */
  ghost predicate KeysOf(picks: seq<GroupItem>, m: Requested) {
    && (forall p :: p in picks ==> p.item.lineId in m && m[p.item.lineId] == p.quantity)
    && (forall line :: line in m ==> exists p :: p in picks && p.item.lineId == line)
    && |m| == |picks|
  }

  lemma {:induction false} DeliveredKeys(picks: seq<GroupItem>)
    requires forall i, j :: 0 <= i < j < |picks| ==> picks[i].item.lineId != picks[j].item.lineId
    ensures KeysOf(picks, Delivered(picks))
  {
    if picks != [] {
      var n := |picks| - 1;
      DeliveredKeys(picks[..n]);
      assert picks == picks[..n] + [picks[n]];
      DeliveredNext(picks[..n], picks[n]);
      KeysNext(picks[..n], picks[n], Delivered(picks[..n]));
    }
  }

  lemma KeysNext(picks: seq<GroupItem>, last: GroupItem, m: Requested)
    requires KeysOf(picks, m) && forall p :: p in picks ==> p.item.lineId != last.item.lineId
    ensures KeysOf(picks + [last], m[last.item.lineId := last.quantity])
  {
    var longer, next := picks + [last], m[last.item.lineId := last.quantity];
    assert last.item.lineId !in m;
    assert longer[|picks|] == last;
    forall line | line in next ensures exists p :: p in longer && p.item.lineId == line {
      if line == last.item.lineId {
        assert last in longer;
      } else {
        var p :| p in picks && p.item.lineId == line;
        assert p in longer;
      }
    }
  }

  lemma DeliveredNext(picks: seq<GroupItem>, last: GroupItem)
    ensures Delivered(picks + [last]) == Delivered(picks)[last.item.lineId := last.quantity]
  {
    assert (picks + [last])[..|picks|] == picks;
  }

  /** When no line is short or missing, the groups hold every requested line exactly once, with its full
      quantity, at its first occurrence and within what remains there; nothing else is in them. Each group
      is for the order its items come from. */
  lemma AllocationExact(orders: seq<FulfillmentOrder>, requested: Requested)
    requires !SomeShort(Flat(orders), requested) && !SomeMissing(Flat(orders), requested)
    ensures Placed(orders, GroupsOf(orders, requested))
    ensures var picks := FlatGroups(GroupsOf(orders, requested));
            && Delivered(picks) == requested && |picks| == |requested|
            && (forall i, j :: 0 <= i < j < |picks| ==> picks[i].item.lineId != picks[j].item.lineId)
            && (forall p :: p in picks ==> IsFirstPick(Flat(orders), requested, p) && p.quantity <= p.item.remaining)
  {
    GroupsArePlaced(orders, requested);
    GroupsAreThePicks(orders, requested);
    PicksExact(Flat(orders), requested);
    ExactWhenNoneShort(Flat(orders), requested, FlatGroups(GroupsOf(orders, requested)));
  }

  lemma PickWithin(flat: seq<OrderItem>, requested: Requested, pick: GroupItem)
    requires IsFirstPick(flat, requested, pick) && !SomeShort(flat, requested)
    ensures pick.quantity <= pick.item.remaining
  {
    var k: nat :| k < |flat| && FirstOf(flat, k, {}) && flat[k] == pick.item;
    assert !ShortAt(flat, k, {}, requested);
  }

  lemma ExactWhenNoneShort(flat: seq<OrderItem>, requested: Requested, picks: seq<GroupItem>)
    requires PicksOk(flat, requested, picks) && !SomeShort(flat, requested) && !SomeMissing(flat, requested)
    ensures Delivered(picks) == requested && |picks| == |requested|
    ensures forall p :: p in picks ==> IsFirstPick(flat, requested, p) && p.quantity <= p.item.remaining
  {
    forall p | p in picks ensures p.quantity <= p.item.remaining && p.item.lineId in requested && p.quantity == requested[p.item.lineId] {
      PickWithin(flat, requested, p);
    }
    forall line | line in requested ensures exists p :: p in picks && p.item.lineId == line {
      assert Wanted(requested, line) && line in Lines(flat);
    }
    assert Fits(picks, requested);
    hide *;
    DeliveredIs(picks, requested);
  }

  /** Every pick takes its line's requested quantity, and every requested line has a pick. */
  ghost predicate Fits(picks: seq<GroupItem>, requested: Requested) {
    && (forall p :: p in picks ==> p.item.lineId in requested && p.quantity == requested[p.item.lineId])
    && (forall line :: line in requested ==> exists p :: p in picks && p.item.lineId == line)
  }

  lemma DeliveredIs(picks: seq<GroupItem>, requested: Requested)
    requires forall i, j :: 0 <= i < j < |picks| ==> picks[i].item.lineId != picks[j].item.lineId
    requires Fits(picks, requested)
    ensures Delivered(picks) == requested && |picks| == |requested|
  {
    DeliveredKeys(picks);
    hide Delivered, KeysOf, Fits;
    var delivered := Delivered(picks);
    forall line ensures line in delivered <==> line in requested { KeyIs(picks, requested, delivered, line); }
    forall line | line in requested ensures delivered[line] == requested[line] { KeyIs(picks, requested, delivered, line); }
    assert delivered.Keys == requested.Keys;
    SizeIs(picks, delivered);
  }

  lemma SizeIs(picks: seq<GroupItem>, m: Requested)
    requires KeysOf(picks, m)
    ensures |m| == |picks|
  {
  }

  lemma KeyIs(picks: seq<GroupItem>, requested: Requested, m: Requested, line: LineId)
    requires KeysOf(picks, m)
    requires Fits(picks, requested)
    ensures line in m <==> line in requested
    ensures line in m ==> m[line] == requested[line]
  {
    if line in requested {
      var p :| p in picks && p.item.lineId == line;
      assert p.item.lineId in m && m[p.item.lineId] == p.quantity;
    }
    if line in m { var p :| p in picks && p.item.lineId == line; }
  }

  // ---- recovery ----

  datatype Fulfillment = Fulfillment(id: string, tracking: seq<Option<string>>, lines: seq<(LineId, int)>)

  const FULFILLMENT_PAGE: nat := 100
  const TRACKING_PAGE: nat := 10
  const LINE_PAGE: nat := 100

  function FirstN<T>(s: seq<T>, n: nat): seq<T> { if |s| <= n then s else s[..n] }

  /** `fulfillments(first: 100, reverse: true)`: the newest page, newest first. */
  function NewestPage(all: seq<Fulfillment>): seq<Fulfillment> {
    seq(if |all| <= FULFILLMENT_PAGE then |all| else FULFILLMENT_PAGE, i requires 0 <= i < |all| => all[|all| - 1 - i])
  }

  function HasTracking(number: Option<string>): bool { number.Some? && number.value != "" }

  predicate Tracks(f: Fulfillment, number: string) {
    Some(number) in FirstN(f.tracking, TRACKING_PAGE)
  }

  /** Only the first ten tracking entries are looked up. */
  lemma TracksExactly(f: Fulfillment, number: string)
    ensures Tracks(f, number) <==> exists t :: 0 <= t < |f.tracking| && t < 10 && f.tracking[t] == Some(number)
  {
    var shown := FirstN(f.tracking, 10);
    forall t | 0 <= t < |f.tracking| && t < 10 ensures shown[t] == f.tracking[t] {}
    if t :| 0 <= t < |f.tracking| && t < 10 && f.tracking[t] == Some(number) { assert shown[t] in shown; }
  }

  /** `new Map(nodes.map(...))`: the last node of a line wins. */
  function LineMap(lines: seq<(LineId, int)>): Requested {
    if lines == [] then map[] else LineMap(lines[..|lines| - 1])[lines[|lines| - 1].0 := lines[|lines| - 1].1]
  }

  function VisibleLines(f: Fulfillment): Requested { LineMap(FirstN(f.lines, LINE_PAGE)) }

  /** `new Map(context.items.map(...))`: bare ids are made global ones, and here too the last item of a line wins. */
  function RequestedOf(items: seq<(string, int)>): Requested { LineMap(GlobalItems(items)) }

  function GlobalItems(items: seq<(string, int)>): seq<(LineId, int)> {
    seq(|items|, i requires 0 <= i < |items| => (GlobalId(items[i].0), items[i].1))
  }

  function GlobalId(id: string): LineId {
    if "gid://" <= id then id else "gid://shopify/LineItem/" + id
  }

  // ---- how much of each line a list of nodes amounts to ----

  function Total(lines: seq<(LineId, int)>, line: LineId): int {
    if lines == [] then 0
    else Total(lines[..|lines| - 1], line) + if lines[|lines| - 1].0 == line then lines[|lines| - 1].1 else 0
  }

  function Quantity(requested: Requested, line: LineId): int { if line in requested then requested[line] else 0 }

  /** Of every line, the nodes add up to the requested quantity. */
  ghost predicate Ships(lines: seq<(LineId, int)>, requested: Requested) {
    forall line :: Total(lines, line) == Quantity(requested, line)
  }

  predicate DistinctLines(lines: seq<(LineId, int)>) {
    forall i, j :: 0 <= i < j < |lines| ==> lines[i].0 != lines[j].0
  }

  /** Shopify's line nodes, and by a check constraint the shipment's items. */
  predicate Positive(lines: seq<(LineId, int)>) {
    forall i :: 0 <= i < |lines| ==> lines[i].1 > 0
  }

  lemma {:induction false} TotalAppend(a: seq<(LineId, int)>, b: seq<(LineId, int)>, line: LineId)
    ensures Total(a + b, line) == Total(a, line) + Total(b, line)
  {
    if b == [] {
      assert a + b == a;
    } else {
      TotalAppend(a, b[..|b| - 1], line);
      assert (a + b)[..|a + b| - 1] == a + b[..|b| - 1];
    }
  }

  /** Node k is the line's last, with that quantity. */
  predicate IsLastNode(lines: seq<(LineId, int)>, k: int, line: LineId, quantity: int) {
    0 <= k < |lines| && lines[k] == (line, quantity) && forall j :: k < j < |lines| ==> lines[j].0 != line
  }

  /** The map has of every line the quantity of its last node. */
  lemma {:induction false} LastNodeWins(lines: seq<(LineId, int)>, line: LineId, quantity: int)
    ensures line in LineMap(lines) && LineMap(lines)[line] == quantity <==> exists k :: IsLastNode(lines, k, line, quantity)
  {
    if lines != [] {
      var n := |lines| - 1;
      LastNodeWins(lines[..n], line, quantity);
      forall k ensures IsLastNode(lines, k, line, quantity) <==>
                       (k == n && lines[n] == (line, quantity)) || (lines[n].0 != line && IsLastNode(lines[..n], k, line, quantity))
      {
        LastNodeNext(lines, k, line, quantity);
      }
      hide IsLastNode;
      if lines[n] == (line, quantity) { assert IsLastNode(lines, n, line, quantity); }
    }
  }

  lemma LastNodeNext(lines: seq<(LineId, int)>, k: int, line: LineId, quantity: int)
    requires lines != []
    ensures var n := |lines| - 1;
            IsLastNode(lines, k, line, quantity) <==>
              (k == n && lines[n] == (line, quantity)) || (lines[n].0 != line && IsLastNode(lines[..n], k, line, quantity))
  {
  }

  /** Two ids name one line exactly when they are equal or one is the number of the other. */
  lemma SameLineExactly(a: string, b: string)
    ensures var prefix := "gid://shopify/LineItem/";
            GlobalId(a) == GlobalId(b) <==>
              a == b || (!("gid://" <= a) && b == prefix + a) || (!("gid://" <= b) && a == prefix + b)
  {
    var prefix := "gid://shopify/LineItem/";
    assert prefix[..6] == "gid://";
    assert "gid://" <= prefix + a && "gid://" <= prefix + b;
    assert (prefix + a)[|prefix|..] == a && (prefix + b)[|prefix|..] == b;
  }

  /** A line without nodes adds up to nothing; with positive nodes only such a line does. */
  lemma {:induction false} TotalZero(lines: seq<(LineId, int)>, line: LineId)
    ensures (forall i :: 0 <= i < |lines| ==> lines[i].0 != line) ==> Total(lines, line) == 0 && line !in LineMap(lines)
    ensures Positive(lines) ==>
              && Total(lines, line) >= 0
              && (Total(lines, line) == 0 ==> forall i :: 0 <= i < |lines| ==> lines[i].0 != line)
              && Total(lines, line) >= Quantity(LineMap(lines), line)
  {
    if lines != [] { TotalZero(lines[..|lines| - 1], line); }
  }

  lemma {:induction false} DistinctShips(lines: seq<(LineId, int)>)
    requires DistinctLines(lines)
    ensures Ships(lines, LineMap(lines))
  {
    if lines != [] {
      DistinctShips(lines[..|lines| - 1]);
      TotalZero(lines[..|lines| - 1], lines[|lines| - 1].0);
      forall line ensures Total(lines, line) == Quantity(LineMap(lines), line) {
        assert Total(lines[..|lines| - 1], line) == Quantity(LineMap(lines[..|lines| - 1]), line);
      }
    }
  }

  lemma {:induction false} ShipsDistinct(lines: seq<(LineId, int)>)
    requires Positive(lines) && Ships(lines, LineMap(lines))
    ensures DistinctLines(lines)
  {
    if lines != [] {
      var n := |lines| - 1;
      var last := lines[n].0;
      assert Total(lines, last) == Quantity(LineMap(lines), last);
      TotalZero(lines[..n], last);
      forall line ensures Total(lines[..n], line) == Quantity(LineMap(lines[..n]), line) {
        assert Total(lines, line) == Quantity(LineMap(lines), line);
      }
      ShipsDistinct(lines[..n]);
      forall i, j | 0 <= i < j < |lines| ensures lines[i].0 != lines[j].0 {
        assert lines[..n][i] == lines[i];
        if j < n { assert lines[..n][j] == lines[j]; }
      }
    }
  }

  /** Reading positive nodes into a map keeps every quantity exactly when no line has two nodes. */
  lemma LastNodeWinsExactly(lines: seq<(LineId, int)>)
    requires Positive(lines)
    ensures Ships(lines, LineMap(lines)) <==> DistinctLines(lines)
  {
    if DistinctLines(lines) { DistinctShips(lines); }
    if Ships(lines, LineMap(lines)) { ShipsDistinct(lines); }
  }

  /** The requested map has every item's quantity exactly when no two ids of the shipment name the same line. */
  lemma RequestedExactly(items: seq<(string, int)>)
    requires forall i :: 0 <= i < |items| ==> items[i].1 > 0
    ensures Ships(GlobalItems(items), RequestedOf(items)) <==> DistinctLines(GlobalItems(items))
  {
    LastNodeWinsExactly(GlobalItems(items));
  }

  /** A fulfilment that looks like the requested lines ships exactly them, exactly when the lookup shows all
      its nodes and no line has two of them. */
  lemma LooksRightExactly(f: Fulfillment, requested: Requested)
    requires Positive(f.lines) && VisibleLines(f) == requested
    ensures Ships(f.lines, requested) <==> |f.lines| <= 100 && DistinctLines(f.lines)
  {
    if |f.lines| <= 100 {
      LastNodeWinsExactly(f.lines);
    } else {
      var visible, more := f.lines[..100], f.lines[100..];
      var line := f.lines[100].0;
      assert f.lines == visible + more && more[0].0 == line;
      TotalAppend(visible, more, line);
      TotalZero(visible, line);
      TotalZero(more, line);
      assert Total(f.lines, line) > Quantity(requested, line);
    }
  }

  datatype Recovery = Existing(id: string) | Different | NoneFound

  /** The first fulfilment on the page with this tracking number and exactly these lines. */
  function RecoveryOf(page: seq<Fulfillment>, number: string, requested: Requested): Recovery {
    if page == [] then NoneFound
    else
      var n := |page| - 1;
      var earlier := RecoveryOf(page[..n], number, requested);
      if earlier.Existing? || !Tracks(page[n], number) then earlier
      else if VisibleLines(page[n]) == requested then Existing(page[n].id)
      else Different
  }

  lemma {:induction false} RecoveryExact(page: seq<Fulfillment>, number: string, requested: Requested)
    ensures var r := RecoveryOf(page, number, requested);
            && (r.NoneFound? <==> forall f :: f in page ==> !Tracks(f, number))
            && (r.Existing? <==> exists f :: f in page && Tracks(f, number) && VisibleLines(f) == requested)
            && (r.Existing? ==> exists f :: f in page && f.id == r.id && Tracks(f, number) && VisibleLines(f) == requested)
  {
    if page != [] {
      var n := |page| - 1;
      RecoveryExact(page[..n], number, requested);
      assert page == page[..n] + [page[n]];
      assert page[n] in page;
      assert forall f :: f in page[..n] ==> f in page;
      assert forall f :: f in page ==> f in page[..n] || f == page[n];
    }
  }

  /** The lookup misses the only fulfilment with the tracking number exactly when 100 newer ones follow it. */
  lemma RecoveryReach(all: seq<Fulfillment>, k: nat, number: string, requested: Requested)
    requires k < |all| && forall j :: 0 <= j < |all| ==> (Tracks(all[j], number) <==> j == k)
    ensures RecoveryOf(NewestPage(all), number, requested).NoneFound? <==> k + 100 < |all|
  {
    var page := NewestPage(all);
    RecoveryExact(page, number, requested);
    if k + 100 >= |all| { assert page[|all| - 1 - k] == all[k]; }
  }

  /** The loop over the fulfilments with the same tracking number. */
  method Recover(page: seq<Fulfillment>, number: string, requested: Requested) returns (r: Recovery)
    ensures r == RecoveryOf(page, number, requested)
  {
    var sameTracking := false;
    for i := 0 to |page|
      invariant RecoveryOf(page[..i], number, requested) == if sameTracking then Different else NoneFound
    {
      assert page[..i + 1][..i] == page[..i];
      if Tracks(page[i], number) {
        sameTracking := true;
        var actual := VisibleLines(page[i]);
        SameMap(actual, requested);
        if |actual| == |requested| && forall line | line in requested :: line in actual && actual[line] == requested[line] {
          StaysExisting(page, i + 1, number, requested);
          return Existing(page[i].id);
        }
      }
    }
    assert page[..|page|] == page;
    return if sameTracking then Different else NoneFound;
  }

  lemma {:induction false} StaysExisting(page: seq<Fulfillment>, n: nat, number: string, requested: Requested)
    requires n <= |page| && RecoveryOf(page[..n], number, requested).Existing?
    ensures RecoveryOf(page, number, requested) == RecoveryOf(page[..n], number, requested)
    decreases |page| - n
  {
    if n < |page| {
      assert page[..n + 1][..n] == page[..n];
      StaysExisting(page, n + 1, number, requested);
    } else {
      assert page[..n] == page;
    }
  }

  /** Equal sizes and agreement on the requested lines make equal maps. */
  lemma SameMap(actual: Requested, requested: Requested)
    ensures (|actual| == |requested| && forall line :: line in requested ==> line in actual && actual[line] == requested[line])
            <==> actual == requested
  {
    if |actual| == |requested| && forall line :: line in requested ==> line in actual && actual[line] == requested[line] {
      SubsetOfEqualSize(requested.Keys, actual.Keys);
      assert |actual.Keys| == |actual| && |requested.Keys| == |requested|;
    }
  }

  lemma {:induction false} SubsetOfEqualSize(a: set<LineId>, b: set<LineId>)
    requires a <= b
    ensures |a| <= |b| && (|a| == |b| ==> a == b)
  {
    if a != {} {
      var x :| x in a;
      SubsetOfEqualSize(a - {x}, b - {x});
    }
  }

  // ---- the whole decision ----

  datatype Plan =
    | OrderMissing
    | Reuse(id: string)
    | TrackingConflict
    | Refuse(reason: Allocation)
    | Create(groups: seq<Group>)

  ghost function AllocationOf(orders: seq<FulfillmentOrder>, requested: Requested): Allocation {
    if SomeShort(Flat(orders), requested) then QuantityExceedsRemaining
    else if SomeMissing(Flat(orders), requested) then LineNotFound
    else Allocated(GroupsOf(orders, requested))
  }

  /** `found` is what the lookup shows of the order: its fulfilments, oldest first, and its fulfilment orders. */
  ghost function PlanOf(found: Option<(seq<Fulfillment>, seq<FulfillmentOrder>)>, tracking: Option<string>, requested: Requested): Plan {
    if found.None? then OrderMissing
    else
      var recovery := if HasTracking(tracking) then RecoveryOf(NewestPage(found.value.0), tracking.value, requested) else NoneFound;
      match recovery
      case Existing(id) => Reuse(id)
      case Different => TrackingConflict
      case NoneFound =>
        var allocation := AllocationOf(found.value.1, requested);
        if allocation.Allocated? then Create(allocation.groups) else Refuse(allocation)
  }

  method PlanPublish(found: Option<(seq<Fulfillment>, seq<FulfillmentOrder>)>, tracking: Option<string>, items: seq<(string, int)>)
    returns (plan: Plan)
    ensures plan == PlanOf(found, tracking, RequestedOf(items))
    ensures plan.Create? ==> found.Some? && Placed(found.value.1, plan.groups)
  {
    if found.None? { return OrderMissing; }
    var requested := RequestedOf(items);
    if HasTracking(tracking) {
      var recovery := Recover(NewestPage(found.value.0), tracking.value, requested);
      if recovery.Existing? { return Reuse(recovery.id); }
      if recovery.Different? { return TrackingConflict; }
    }
    var allocation := Allocate(found.value.1, requested);
    return if allocation.Allocated? then Create(allocation.groups) else Refuse(allocation);
  }

  /** The line nodes a created fulfilment shows. */
  function CreatedLines(picks: seq<GroupItem>): seq<(LineId, int)> {
    seq(|picks|, i requires 0 <= i < |picks| => (picks[i].item.lineId, picks[i].quantity))
  }

  lemma {:induction false} CreatedLinesMap(picks: seq<GroupItem>)
    ensures LineMap(CreatedLines(picks)) == Delivered(picks)
  {
    if picks != [] {
      var n := |picks| - 1;
      CreatedLinesMap(picks[..n]);
      assert CreatedLines(picks)[..n] == CreatedLines(picks[..n]);
    }
  }

  lemma CreatedShips(picks: seq<GroupItem>)
    requires forall i, j :: 0 <= i < j < |picks| ==> picks[i].item.lineId != picks[j].item.lineId
    ensures Ships(CreatedLines(picks), Delivered(picks))
  {
    CreatedLinesMap(picks);
    DistinctShips(CreatedLines(picks));
  }

  /** A reused fulfilment, and when its nodes ship exactly the requested quantities. */
  ghost predicate LooksRight(f: Fulfillment, requested: Requested) {
    && VisibleLines(f) == requested
    && (Positive(f.lines) ==> (Ships(f.lines, requested) <==> |f.lines| <= 100 && DistinctLines(f.lines)))
  }

  ghost predicate SomeMatch(fulfillments: seq<Fulfillment>, id: string, number: string, requested: Requested) {
    exists f :: f in fulfillments && f.id == id && Tracks(f, number) && LooksRight(f, requested)
  }

  /** The lookup runs for a tracking number: neither null nor empty. */
  predicate Numbered(tracking: Option<string>) { tracking.Some? && |tracking.value| > 0 }

  /** One of the newest hundred fulfilments carries the number. */
  ghost predicate Carried(fulfillments: seq<Fulfillment>, tracking: Option<string>) {
    && Numbered(tracking)
    && exists i :: 0 <= i < |fulfillments| && |fulfillments| <= i + 100 && Tracks(fulfillments[i], tracking.value)
  }

  lemma CarriedMeans(fulfillments: seq<Fulfillment>, tracking: Option<string>)
    requires Numbered(tracking)
    ensures Carried(fulfillments, tracking) <==> exists f :: f in NewestPage(fulfillments) && Tracks(f, tracking.value)
  {
    var page := NewestPage(fulfillments);
    forall i | 0 <= i < |fulfillments| && |fulfillments| <= i + 100 ensures fulfillments[i] in page {
      assert page[|fulfillments| - 1 - i] == fulfillments[i];
    }
    if f :| f in page && Tracks(f, tracking.value) {
      var k :| 0 <= k < |page| && page[k] == f;
      assert Tracks(fulfillments[|fulfillments| - 1 - k], tracking.value);
    }
  }

  /** What is created ships exactly the requested quantities, each group out of the order it names, and nothing
      is created while one of the newest hundred fulfilments carries the tracking number. What is reused carries
      the number and looks like the requested lines; it ships exactly them exactly when it has at most 100 nodes
      and no line twice. */
  lemma PlanExact(fulfillments: seq<Fulfillment>, orders: seq<FulfillmentOrder>, tracking: Option<string>, requested: Requested)
    ensures var plan := PlanOf(Some((fulfillments, orders)), tracking, requested);
            && (plan.Create? ==> Ships(CreatedLines(FlatGroups(plan.groups)), requested) && Placed(orders, plan.groups))
            && (plan.Reuse? || plan.TrackingConflict? <==> Carried(fulfillments, tracking))
            && (plan.Reuse? ==> SomeMatch(fulfillments, plan.id, tracking.value, requested))
            && (plan.TrackingConflict? ==>
                  forall f :: f in NewestPage(fulfillments) && Tracks(f, tracking.value) ==> VisibleLines(f) != requested)
  {
    var plan := PlanOf(Some((fulfillments, orders)), tracking, requested);
    if HasTracking(tracking) {
      RecoveryExact(NewestPage(fulfillments), tracking.value, requested);
      CarriedMeans(fulfillments, tracking);
      assert forall f :: f in NewestPage(fulfillments) ==> f in fulfillments;
    }
    hide NewestPage, RecoveryOf, AllocationOf, Carried;
    PlanUnfold(fulfillments, orders, tracking, requested);
    if plan.Create? {
      CreateExact(fulfillments, orders, tracking, requested);
    }
    if plan.Reuse? {
      var f :| f in NewestPage(fulfillments) && f.id == plan.id && Tracks(f, tracking.value) && VisibleLines(f) == requested;
      if Positive(f.lines) { LooksRightExactly(f, requested); }
      assert LooksRight(f, requested);
    }
  }

  lemma PlanUnfold(fulfillments: seq<Fulfillment>, orders: seq<FulfillmentOrder>, tracking: Option<string>, requested: Requested)
    ensures HasTracking(tracking) <==> Numbered(tracking)
    ensures Carried(fulfillments, tracking) ==> HasTracking(tracking)
    ensures var plan := PlanOf(Some((fulfillments, orders)), tracking, requested);
            var recovery := if HasTracking(tracking) then RecoveryOf(NewestPage(fulfillments), tracking.value, requested) else NoneFound;
            && (plan.Reuse? <==> recovery.Existing?) && (plan.Reuse? ==> plan.id == recovery.id)
            && (plan.TrackingConflict? <==> recovery.Different?)
  {
    hide RecoveryOf, NewestPage, AllocationOf;
  }

  lemma CreateExact(fulfillments: seq<Fulfillment>, orders: seq<FulfillmentOrder>, tracking: Option<string>, requested: Requested)
    requires PlanOf(Some((fulfillments, orders)), tracking, requested).Create?
    ensures var plan := PlanOf(Some((fulfillments, orders)), tracking, requested);
            Ships(CreatedLines(FlatGroups(plan.groups)), requested) && Placed(orders, plan.groups)
  {
    hide RecoveryOf, NewestPage, GroupsOf, Delivered, Placed;
    AllocationExact(orders, requested);
    CreatedShips(FlatGroups(GroupsOf(orders, requested)));
  }

  /** A wanted line whose first item does not have enough left. */
  ghost predicate TooMuch(items: seq<OrderItem>, requested: Requested) {
    exists k :: 0 <= k < |items| && (forall j :: 0 <= j < k ==> items[j].lineId != items[k].lineId)
      && items[k].lineId in requested && requested[items[k].lineId] != 0 && requested[items[k].lineId] > items[k].remaining
  }

  /** A requested line that no item is of; one that is requested with quantity zero is never taken. */
  ghost predicate NotThere(items: seq<OrderItem>, requested: Requested) {
    exists line :: line in requested && (requested[line] == 0 || forall k :: 0 <= k < |items| ==> items[k].lineId != line)
  }

  /** Without the tracking number among the newest, it is refused exactly for one of two reasons, the first first. */
  lemma RefusedExactly(fulfillments: seq<Fulfillment>, orders: seq<FulfillmentOrder>, tracking: Option<string>, requested: Requested)
    requires !Carried(fulfillments, tracking)
    ensures var plan, items := PlanOf(Some((fulfillments, orders)), tracking, requested), Flat(orders);
            && (plan == Refuse(QuantityExceedsRemaining) <==> TooMuch(items, requested))
            && (plan == Refuse(LineNotFound) <==> !TooMuch(items, requested) && NotThere(items, requested))
            && (plan.Create? <==> !TooMuch(items, requested) && !NotThere(items, requested))
  {
    PlanExact(fulfillments, orders, tracking, requested);
    ShortIsTooMuch(Flat(orders), requested);
    MissingIsNotThere(Flat(orders), requested);
    hide RecoveryOf, NewestPage, TooMuch, NotThere, SomeShort, SomeMissing, Flat, GroupsOf, Carried;
  }

  lemma ShortIsTooMuch(items: seq<OrderItem>, requested: Requested)
    ensures SomeShort(items, requested) <==> TooMuch(items, requested)
  {
    forall k: nat | k < |items|
      ensures items[k].lineId in Lines(items[..k]) <==> exists j :: 0 <= j < k && items[j].lineId == items[k].lineId
    {
      if j :| 0 <= j < k && items[j].lineId == items[k].lineId { assert items[j] in items[..k]; }
    }
    if k: nat :| k < |items| && ShortAt(items, k, {}, requested) { assert TooMuch(items, requested); }
    if TooMuch(items, requested) {
      var k :| 0 <= k < |items| && (forall j :: 0 <= j < k ==> items[j].lineId != items[k].lineId)
        && items[k].lineId in requested && requested[items[k].lineId] != 0 && requested[items[k].lineId] > items[k].remaining;
      assert ShortAt(items, k, {}, requested);
    }
  }

  lemma MissingIsNotThere(items: seq<OrderItem>, requested: Requested)
    ensures SomeMissing(items, requested) <==> NotThere(items, requested)
  {
    forall line ensures line !in Lines(items) <==> forall k :: 0 <= k < |items| ==> items[k].lineId != line {
      if k :| 0 <= k < |items| && items[k].lineId == line { assert items[k] in items; }
    }
  }

  /** The exception is real: two nodes of one line pass for one, and twice the requested quantity is taken as right. */
  lemma TwoNodesPassForOne()
    ensures var f := Fulfillment("f", [Some("track")], [("line", 1), ("line", 1)]);
            && PlanOf(Some(([f], [])), Some("track"), map["line" := 1]) == Reuse("f")
            && Total(f.lines, "line") == 2
  {
    var f := Fulfillment("f", [Some("track")], [("line", 1), ("line", 1)]);
    var requested: Requested := map["line" := 1];
    var lines := f.lines;
    assert lines[..1] == [("line", 1)] && lines[..1][..0] == [];
    assert LineMap(lines[..1]) == map["line" := 1];
    assert Total(lines[..1], "line") == 1;
    assert VisibleLines(f) == requested;
    RecoveryExact([f], "track", requested);
    assert NewestPage([f]) == [f];
    assert Tracks(f, "track");
    assert f in [f];
  }
}
