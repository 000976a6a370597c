/** Forwarding messages: a list of items goes out in batches, each from one source, and pays stars as it goes. */
module Forwarding {
  import opened Util

  /** A message to forward; an ephemeral one is known to the server only if it has an id there. */
  datatype Item = Item(id: nat, peer: nat, ephemeral: bool, known: bool)

  datatype Range = Range(fromEphemeral: bool, items: seq<Item>)

  /** One request: its source, its items, the local messages to mark if it fails, and the stars it pays. */
  datatype Batch = Batch(peer: nat, fromEphemeral: bool, items: seq<Item>, local: seq<Item>, stars: int)

  // ---------- the ranges ----------

  predicate Sendable(item: Item) {
    item.ephemeral ==> item.known
  }

  function Kept(items: seq<Item>): seq<Item> {
    if |items| == 0 then []
    else Kept(items[..|items| - 1]) + if Sendable(Last(items)) then [Last(items)] else []
  }

  function Flatten(ranges: seq<Range>): seq<Item> {
    if |ranges| == 0 then [] else Flatten(ranges[..|ranges| - 1]) + Last(ranges).items
  }

  /** Runs of items with one flag, as long as they can be. */
  ghost predicate Runs(ranges: seq<Range>) {
    && (forall k | 0 <= k < |ranges| ::
          ranges[k].items != [] && forall item | item in ranges[k].items :: item.ephemeral == ranges[k].fromEphemeral)
    && (forall k | 0 <= k < |ranges| - 1 :: ranges[k].fromEphemeral != ranges[k + 1].fromEphemeral)
  }

  function AddToRanges(ranges: seq<Range>, item: Item): seq<Range> {
    if ranges == [] || Last(ranges).fromEphemeral != item.ephemeral
    then ranges + [Range(item.ephemeral, [item])]
    else ranges[..|ranges| - 1] + [Range(item.ephemeral, Last(ranges).items + [item])]
  }

  lemma AddToRangesKeeps(ranges: seq<Range>, item: Item)
    requires Runs(ranges)
    ensures Runs(AddToRanges(ranges, item)) && Flatten(AddToRanges(ranges, item)) == Flatten(ranges) + [item]
  {
    if ranges == [] || Last(ranges).fromEphemeral != item.ephemeral {
      NewRange(ranges, Range(item.ephemeral, [item]));
    } else {
      assert ranges == ranges[..|ranges| - 1] + [Last(ranges)];
      LastRangeGrows(ranges[..|ranges| - 1], Last(ranges), item);
    }
  }

  lemma NewRange(ranges: seq<Range>, r: Range)
    requires Runs(ranges) && r.items != [] && forall item | item in r.items :: item.ephemeral == r.fromEphemeral
    requires ranges == [] || Last(ranges).fromEphemeral != r.fromEphemeral
    ensures Runs(ranges + [r]) && Flatten(ranges + [r]) == Flatten(ranges) + r.items
  {
    assert (ranges + [r])[..|ranges|] == ranges;
  }

  lemma LastRangeGrows(init: seq<Range>, last: Range, item: Item)
    requires Runs(init + [last]) && item.ephemeral == last.fromEphemeral
    ensures Runs(init + [Range(item.ephemeral, last.items + [item])])
    ensures Flatten(init + [Range(item.ephemeral, last.items + [item])]) == Flatten(init + [last]) + [item]
  {
    var was := init + [last];
    assert was[|init|] == last && forall k | 0 <= k < |init| :: was[k] == init[k];
    assert |init| > 0 ==> was[|init| - 1].fromEphemeral != was[|init| - 1 + 1].fromEphemeral;
    assert Runs(init);
    NewRange(init, last);
    NewRange(init, Range(item.ephemeral, last.items + [item]));
    Assoc(Flatten(init), last.items, [item]);
  }

  /** All items are forwarded but ephemeral ones that the server does not know. */
  lemma {:induction false} KeptAre(items: seq<Item>)
    ensures Kept(items) == Filter(items, (item: Item) => !item.ephemeral || item.known)
  {
    if |items| > 0 {
      KeptAre(items[..|items| - 1]);
      assert items == items[..|items| - 1] + [Last(items)];
      FilterPush(items[..|items| - 1], Last(items), (item: Item) => !item.ephemeral || item.known);
    }
  }

  /** The items, in the order of their positions, split by where they come from. */
  method CollectForwardRanges(ordered: seq<Item>) returns (ranges: seq<Range>)
    ensures Flatten(ranges) == Kept(ordered) && Runs(ranges)
  {
    ranges := [];
    for i := 0 to |ordered|
      invariant Flatten(ranges) == Kept(ordered[..i]) && Runs(ranges)
    {
      assert ordered[..i + 1][..i] == ordered[..i];
      var item := ordered[i];
      if item.ephemeral && !item.known {
        continue;
      }
      AddToRangesKeeps(ranges, item);
      if ranges == [] || ranges[|ranges| - 1].fromEphemeral != item.ephemeral {
        ranges := ranges + [Range(item.ephemeral, [item])];
      } else {
        ranges := ranges[..|ranges| - 1] + [Range(item.ephemeral, ranges[|ranges| - 1].items + [item])];
      }
    }
    assert ordered[..|ordered|] == ordered;
  }

  // ---------- the accumulation ----------

  /** The variables of the pass over the ranges. */
  datatype Acc = Acc(
    ids: seq<Item>,
    local: seq<Item>,
    forwardFrom: nat,
    fromEphemeral: bool,
    approved: int,
    sent: seq<Batch>)

  function Min(a: int, b: int): (m: int)
    ensures m <= a && m <= b && (m == a || m == b)
  {
    if a <= b then a else b
  }

  function Flush(a: Acc, price: nat): (b: Acc)
    ensures b.ids == [] && b.forwardFrom == a.forwardFrom && b.fromEphemeral == a.fromEphemeral
    ensures a.ids != [] ==> b.local == []
  {
    if a.ids == [] then a
    else
      var stars := Min(a.approved, |a.ids| * price);
      a.(ids := [], local := [], approved := a.approved - stars,
         sent := a.sent + [Batch(a.forwardFrom, a.fromEphemeral, a.ids, a.local, stars)])
  }

  /** One item: its local message is noted first, then a change of source sends what was gathered. */
  function AddItem(a: Acc, item: Item, price: nat, client: bool): Acc {
    var noted := if client then a.(local := a.local + [item]) else a;
    var b := if a.forwardFrom != item.peer then Flush(noted, price).(forwardFrom := item.peer) else noted;
    b.(ids := b.ids + [item])
  }

  function AddItems(a: Acc, items: seq<Item>, price: nat, client: bool): Acc
    decreases |items|
  {
    if |items| == 0 then a else AddItem(AddItems(a, items[..|items| - 1], price, client), Last(items), price, client)
  }

  function AddRange(a: Acc, range: Range, price: nat, client: bool): Acc {
    Flush(AddItems(a.(fromEphemeral := range.fromEphemeral), range.items, price, client), price)
  }

  function AddRanges(a: Acc, ranges: seq<Range>, price: nat, client: bool): Acc
    decreases |ranges|
  {
    if |ranges| == 0 then a
    else AddRange(AddRanges(a, ranges[..|ranges| - 1], price, client), Last(ranges), price, client)
  }

  function Start(from: nat, approved: int): Acc {
    Acc([], [], from, false, approved, [])
  }

  // ---------- what the batches are ----------

  function Joined(batches: seq<Batch>): seq<Item> {
    if |batches| == 0 then [] else Joined(batches[..|batches| - 1]) + Last(batches).items
  }

  function Noted(batches: seq<Batch>): seq<Item> {
    if |batches| == 0 then [] else Noted(batches[..|batches| - 1]) + Last(batches).local
  }

  function Paid(batches: seq<Batch>): int {
    if |batches| == 0 then 0 else Paid(batches[..|batches| - 1]) + Last(batches).stars
  }

  ghost predicate FromOne(items: seq<Item>, peer: nat, ephemeral: bool) {
    forall item | item in items :: item.peer == peer && item.ephemeral == ephemeral
  }

  ghost predicate Uniform(b: Batch) {
    b.items != [] && FromOne(b.items, b.peer, b.fromEphemeral)
  }

  /** Two batches in a row differ in their source or their flag: no request could be saved. */
  ghost predicate Apart(b: Batch, peer: nat, ephemeral: bool) {
    b.peer != peer || b.fromEphemeral != ephemeral
  }

  ghost predicate Grouped(batches: seq<Batch>) {
    && (forall k | 0 <= k < |batches| :: Uniform(batches[k]))
    && (forall k | 0 <= k < |batches| - 1 :: Apart(batches[k], batches[k + 1].peer, batches[k + 1].fromEphemeral))
  }

  /** The accumulator after some items: everything is in a batch or gathered, and the stars are accounted for. */
  ghost predicate Accumulates(a: Acc, items: seq<Item>, approved: nat, price: nat) {
    && Joined(a.sent) + a.ids == items
    && Grouped(a.sent) && FromOne(a.ids, a.forwardFrom, a.fromEphemeral)
    && (a.sent != [] && a.ids != [] ==> Apart(Last(a.sent), a.forwardFrom, a.fromEphemeral))
    && Paid(a.sent) == Min(approved, |Joined(a.sent)| * price)
    && a.approved == approved - Paid(a.sent)
  }

  lemma Distribute(m: nat, n: nat, price: nat)
    ensures (m + n) * price == m * price + n * price && 0 <= m * price && 0 <= n * price
  {
  }

  lemma JoinedAppend(batches: seq<Batch>, b: Batch)
    ensures Joined(batches + [b]) == Joined(batches) + b.items
    ensures Noted(batches + [b]) == Noted(batches) + b.local
    ensures Paid(batches + [b]) == Paid(batches) + b.stars
  {
    assert (batches + [b])[..|batches|] == batches;
  }

  lemma FlushKeeps(a: Acc, items: seq<Item>, approved: nat, price: nat)
    requires Accumulates(a, items, approved, price)
    ensures Accumulates(Flush(a, price), items, approved, price) && Flush(a, price).ids == []
    ensures a.ids != [] ==> Flush(a, price).sent != [] && Last(Flush(a, price).sent).peer == a.forwardFrom
    ensures a.ids != [] ==> Last(Flush(a, price).sent).fromEphemeral == a.fromEphemeral
  {
    if a.ids != [] {
      JoinedAppend(a.sent, Last(Flush(a, price).sent));
      Distribute(|Joined(a.sent)|, |a.ids|, price);
    }
  }

  lemma PushKeeps(a: Acc, items: seq<Item>, item: Item, approved: nat, price: nat)
    requires Accumulates(a, items, approved, price) && item.ephemeral == a.fromEphemeral && item.peer == a.forwardFrom
    requires a.ids == [] && a.sent != [] ==> Apart(Last(a.sent), a.forwardFrom, a.fromEphemeral)
    ensures Accumulates(a.(ids := a.ids + [item]), items + [item], approved, price)
  {
    Assoc(Joined(a.sent), a.ids, [item]);
  }

  /** At the start of a range the last batch had the other flag. */
  ghost predicate Fresh(a: Acc) {
    a.ids == [] && a.sent != [] ==> Last(a.sent).fromEphemeral != a.fromEphemeral
  }

  lemma AddItemKeeps(a: Acc, items: seq<Item>, item: Item, approved: nat, price: nat, client: bool)
    requires Accumulates(a, items, approved, price) && item.ephemeral == a.fromEphemeral && Fresh(a)
    ensures Accumulates(AddItem(a, item, price, client), items + [item], approved, price)
    ensures AddItem(a, item, price, client).fromEphemeral == a.fromEphemeral
    ensures AddItem(a, item, price, client).ids != []
  {
    var noted := if client then a.(local := a.local + [item]) else a;
    if a.forwardFrom != item.peer {
      FlushKeeps(noted, items, approved, price);
      PushKeeps(Flush(noted, price).(forwardFrom := item.peer), items, item, approved, price);
    } else {
      PushKeeps(noted, items, item, approved, price);
    }
  }

  lemma {:induction false} AddItemsKeeps(a: Acc, before: seq<Item>, items: seq<Item>,
                                        approved: nat, price: nat, client: bool)
    requires Accumulates(a, before, approved, price) && Fresh(a)
    requires forall item | item in items :: item.ephemeral == a.fromEphemeral
    ensures Accumulates(AddItems(a, items, price, client), before + items, approved, price)
    ensures Fresh(AddItems(a, items, price, client))
    ensures AddItems(a, items, price, client).fromEphemeral == a.fromEphemeral
    ensures items != [] ==> AddItems(a, items, price, client).ids != []
    decreases |items|
  {
    if |items| == 0 {
      assert before + items == before;
    } else {
      var init := items[..|items| - 1];
      assert items == init + [Last(items)] && Last(items) in items;
      assert forall item | item in init :: item in items;
      AddItemsKeeps(a, before, init, approved, price, client);
      AddItemKeeps(AddItems(a, init, price, client), before + init, Last(items), approved, price, client);
      Assoc(before, init, [Last(items)]);
    }
  }

  lemma AddRangeKeeps(a: Acc, before: seq<Item>, range: Range, approved: nat, price: nat, client: bool)
    requires Accumulates(a, before, approved, price) && a.ids == [] && range.items != []
    requires a.sent != [] ==> Last(a.sent).fromEphemeral != range.fromEphemeral
    requires forall item | item in range.items :: item.ephemeral == range.fromEphemeral
    ensures var b := AddRange(a, range, price, client);
            && Accumulates(b, before + range.items, approved, price) && b.ids == []
            && b.sent != [] && Last(b.sent).fromEphemeral == range.fromEphemeral
  {
    var start := a.(fromEphemeral := range.fromEphemeral);
    AddItemsKeeps(start, before, range.items, approved, price, client);
    FlushKeeps(AddItems(start, range.items, price, client), before + range.items, approved, price);
  }

  lemma {:induction false} AddRangesKeeps(from: nat, ranges: seq<Range>, approved: nat, price: nat, client: bool)
    requires Runs(ranges)
    ensures var b := AddRanges(Start(from, approved), ranges, price, client);
            && Accumulates(b, Flatten(ranges), approved, price) && b.ids == []
            && (ranges != [] ==> b.sent != [] && Last(b.sent).fromEphemeral == Last(ranges).fromEphemeral)
            && (ranges == [] ==> b.sent == [])
    decreases |ranges|
  {
    if |ranges| > 0 {
      var init := ranges[..|ranges| - 1];
      assert ranges[|ranges| - 1] == Last(ranges);
      assert |init| > 0 ==> Last(init) == ranges[|ranges| - 2] && ranges[|ranges| - 2 + 1] == Last(ranges);
      var a := AddRanges(Start(from, approved), init, price, client);
      AddRangesKeeps(from, init, approved, price, client);
      AddRangeKeeps(a, Flatten(init), Last(ranges), approved, price, client);
    }
  }

  function BatchesOf(ranges: seq<Range>, approved: int, price: nat, client: bool): seq<Batch> {
    if ranges == [] || ranges[0].items == [] then []
    else AddRanges(Start(ranges[0].items[0].peer, approved), ranges, price, client).sent
  }

  /**
   * The batches together are the items, in order; each has one source and one flag, and neighbours differ in one of
   * them; and the stars paid are what the whole would have paid at once.
   */
  lemma BatchesAreTheItems(ranges: seq<Range>, approved: nat, price: nat, client: bool)
    requires Runs(ranges)
    ensures var batches := BatchesOf(ranges, approved, price, client);
            && Joined(batches) == Flatten(ranges) && Grouped(batches)
            && Paid(batches) == Min(approved, |Flatten(ranges)| * price)
            && (batches == [] <==> ranges == [])
  {
    if ranges == [] {
    } else {
      AddRangesKeeps(ranges[0].items[0].peer, ranges, approved, price, client);
    }
  }

  // ---------- which local messages a failed request marks ----------

  /** A local message is shown at once only when a single message is forwarded, and with its author. */
  predicate ShowsLocal(ordered: seq<Item>, generateLocal: bool, preserveInfo: bool) {
    generateLocal && |ordered| == 1 && !ordered[0].ephemeral && preserveInfo
  }

  /** Each request has noted exactly its own messages, or none when no local messages are shown. */
  ghost predicate Faithful(batches: seq<Batch>, client: bool) {
    forall k | 0 <= k < |batches| :: batches[k].local == if client then batches[k].items else []
  }

  /** Nothing is noted when no local messages are shown. */
  ghost predicate NothingNoted(a: Acc) {
    a.local == [] && Faithful(a.sent, false)
  }

  lemma FlushNotesNothing(a: Acc, price: nat)
    requires NothingNoted(a)
    ensures NothingNoted(Flush(a, price))
  {
    forall k | 0 <= k < |Flush(a, price).sent| ensures Flush(a, price).sent[k].local == [] {
      if k < |a.sent| {
        assert Flush(a, price).sent[k] == a.sent[k];
      }
    }
  }

  lemma {:induction false} ItemsNoteNothing(a: Acc, items: seq<Item>, price: nat)
    requires NothingNoted(a)
    ensures NothingNoted(AddItems(a, items, price, false))
    decreases |items|
  {
    if |items| > 0 {
      ItemsNoteNothing(a, items[..|items| - 1], price);
      FlushNotesNothing(AddItems(a, items[..|items| - 1], price, false), price);
    }
  }

  lemma {:induction false} RangesNoteNothing(a: Acc, ranges: seq<Range>, price: nat)
    requires NothingNoted(a)
    ensures NothingNoted(AddRanges(a, ranges, price, false))
    decreases |ranges|
  {
    if |ranges| > 0 {
      var range, b := Last(ranges), AddRanges(a, ranges[..|ranges| - 1], price, false);
      RangesNoteNothing(a, ranges[..|ranges| - 1], price);
      ItemsNoteNothing(b.(fromEphemeral := range.fromEphemeral), range.items, price);
      FlushNotesNothing(AddItems(b.(fromEphemeral := range.fromEphemeral), range.items, price, false), price);
    }
  }

  lemma {:induction false} RangesHoldItems(ranges: seq<Range>)
    requires Runs(ranges)
    ensures |Flatten(ranges)| >= |ranges|
  {
    if |ranges| > 0 {
      RangesHoldItems(ranges[..|ranges| - 1]);
      assert ranges[|ranges| - 1].items != [];
    }
  }

  /** A single message makes a single range. */
  lemma OneItemOneRange(ranges: seq<Range>, x: Item)
    requires Runs(ranges) && Flatten(ranges) == [x]
    ensures ranges == [Range(x.ephemeral, [x])]
  {
    RangesHoldItems(ranges);
    assert ranges == [ranges[0]] && ranges[..0] == [];
    assert ranges[0].items == [x] && x in ranges[0].items;
  }

  /** The request for it notes it and nothing else. */
  lemma OneItemNotesItself(x: Item, approved: nat, price: nat)
    ensures Faithful(BatchesOf([Range(x.ephemeral, [x])], approved, price, true), true)
  {
    var range := Range(x.ephemeral, [x]);
    var first := Start(x.peer, approved);
    var start := first.(fromEphemeral := x.ephemeral);
    assert [x][..0] == [] && [range][..0] == [];
    assert AddItems(start, [x][..0], price, true) == start;
    assert AddItems(start, [x], price, true) == AddItem(start, x, price, true);
    assert AddRanges(first, [range][..0], price, true) == first;
    assert AddRanges(first, [range], price, true) == AddRange(first, range, price, true);
  }

  /**
   * A failed request marks exactly the local messages of what it was to send, whatever is forwarded: although a change
   * of source sends a batch after the next message was noted, local messages are shown only where nothing can change.
   */
  lemma FailureMarksItsOwn(ordered: seq<Item>, ranges: seq<Range>, approved: nat, price: nat,
                           generateLocal: bool, preserveInfo: bool)
    requires Runs(ranges) && Flatten(ranges) == Kept(ordered)
    ensures var client := ShowsLocal(ordered, generateLocal, preserveInfo);
            Faithful(BatchesOf(ranges, approved, price, client), client)
  {
    if ShowsLocal(ordered, generateLocal, preserveInfo) {
      assert ordered == [ordered[0]] && Kept(ordered[..0]) == [];
      OneItemOneRange(ranges, ordered[0]);
      OneItemNotesItself(ordered[0], approved, price);
    } else if ranges != [] {
      RangesNoteNothing(Start(ranges[0].items[0].peer, approved), ranges, price);
    }
  }

  // ---------- the replies ----------

  /** The shared counter and callback, the requests without a reply, and how the others ended. */
  datatype Replies = Replies(left: int, waiting: set<nat>, failed: set<nat>, fired: nat)

  function UpTo(count: nat): (s: set<nat>)
    ensures |s| == count && forall k :: k in s <==> 0 <= k < count
  {
    if count == 0 then {} else UpTo(count - 1) + {count - 1}
  }

  /** After the pass: every request is counted, and none is answered. Without requests the callback runs at once. */
  function Sent(count: nat): Replies {
    Replies(count, UpTo(count), {}, if count == 0 then 1 else 0)
  }

  function Succeed(r: Replies, k: nat): Replies {
    r.(waiting := r.waiting - {k}, left := r.left - 1, fired := if r.left == 1 then r.fired + 1 else r.fired)
  }

  function Fail(r: Replies, k: nat): Replies {
    r.(waiting := r.waiting - {k}, failed := r.failed + {k})
  }

  ghost predicate NextReply(r: Replies, t: Replies) {
    exists k :: k in r.waiting && (t == Succeed(r, k) || t == Fail(r, k))
  }

  ghost predicate RepliesRun(rs: seq<Replies>, count: nat) {
    && |rs| > 0 && rs[0] == Sent(count)
    && (forall i | 0 <= i < |rs| - 1 :: NextReply(rs[i], rs[i + 1]))
  }

  ghost predicate Counted(r: Replies) {
    && r.left == |r.waiting| + |r.failed| && r.waiting !! r.failed
    && r.fired == (if r.waiting == {} && r.failed == {} then 1 else 0)
  }

  lemma ReplyKeeps(r: Replies, t: Replies)
    requires Counted(r) && NextReply(r, t)
    ensures Counted(t)
  {
    var k :| k in r.waiting && (t == Succeed(r, k) || t == Fail(r, k));
    assert r.waiting == t.waiting + {k};
    assert |r.waiting| == |t.waiting| + 1;
    if t == Fail(r, k) {
      assert |t.failed| == |r.failed| + 1;
    }
  }

  /** Whatever the order of the replies, the callback runs once when all requests succeeded, and never otherwise. */
  lemma {:induction false} CallbackRunsOnceIff(rs: seq<Replies>, count: nat, i: nat)
    requires RepliesRun(rs, count) && i < |rs|
    ensures Counted(rs[i])
  {
    if i > 0 {
      CallbackRunsOnceIff(rs, count, i - 1);
      assert NextReply(rs[i - 1], rs[i - 1 + 1]);
      ReplyKeeps(rs[i - 1], rs[i]);
    }
  }

  // ---------- the client ----------

  class Forwarder {
    var ids: seq<Item>
    var localIds: seq<Item>
    var forwardFrom: nat
    var fromEphemeral: bool
    var starsApproved: int
    var requests: seq<Batch>
    var requestsLeft: int
    var callbacks: nat // how often the callback ran

    ghost function Value(): Acc
      reads this
    {
      Acc(ids, localIds, forwardFrom, fromEphemeral, starsApproved, requests)
    }

    method SendAccumulated(starsPerMessage: nat)
      modifies this
      ensures Value() == Flush(old(Value()), starsPerMessage) && callbacks == old(callbacks)
      ensures requestsLeft - old(requestsLeft) == |requests| - old(|requests|)
    {
      if ids == [] {
        return;
      }
      requestsLeft := requestsLeft + 1;
      var starsPaid := if starsApproved <= |ids| * starsPerMessage then starsApproved else |ids| * starsPerMessage;
      starsApproved := starsApproved - starsPaid;
      requests := requests + [Batch(forwardFrom, fromEphemeral, ids, localIds, starsPaid)];
      ids, localIds := [], [];
    }

    method AddOne(item: Item, starsPerMessage: nat, client: bool)
      modifies this
      ensures Value() == AddItem(old(Value()), item, starsPerMessage, client) && callbacks == old(callbacks)
      ensures requestsLeft - old(requestsLeft) == |requests| - old(|requests|)
    {
      if client {
        localIds := localIds + [item];
      }
      if forwardFrom != item.peer {
        SendAccumulated(starsPerMessage);
        forwardFrom := item.peer;
      }
      ids := ids + [item];
    }

    method AddOneRange(range: Range, starsPerMessage: nat, client: bool)
      modifies this
      ensures Value() == AddRange(old(Value()), range, starsPerMessage, client) && callbacks == old(callbacks)
      ensures requestsLeft - old(requestsLeft) == |requests| - old(|requests|)
    {
      fromEphemeral := range.fromEphemeral;
      ghost var start := Value();
      for i := 0 to |range.items|
        invariant Value() == AddItems(start, range.items[..i], starsPerMessage, client) && callbacks == old(callbacks)
        invariant requestsLeft - old(requestsLeft) == |requests| - old(|requests|)
      {
        assert range.items[..i + 1][..i] == range.items[..i];
        AddOne(range.items[i], starsPerMessage, client);
      }
      assert range.items[..|range.items|] == range.items;
      SendAccumulated(starsPerMessage);
    }

    method SendRanges(collected: seq<Range>, approved: nat, starsPerMessage: nat, client: bool)
      requires collected != [] && collected[0].items != []
      modifies this
      ensures requests == BatchesOf(collected, approved, starsPerMessage, client)
      ensures requestsLeft == |requests| && callbacks == old(callbacks)
    {
      ids, localIds, requests, requestsLeft := [], [], [], 0;
      forwardFrom, fromEphemeral, starsApproved := collected[0].items[0].peer, false, approved;
      ghost var start := Value();
      for i := 0 to |collected|
        invariant Value() == AddRanges(start, collected[..i], starsPerMessage, client)
        invariant requestsLeft == |requests| && callbacks == old(callbacks)
      {
        assert collected[..i + 1][..i] == collected[..i];
        AddOneRange(collected[i], starsPerMessage, client);
      }
      assert collected[..|collected|] == collected;
    }

    /** Forwards the items, given in the order of their positions. */
    method ForwardMessages(ordered: seq<Item>, approved: nat, starsPerMessage: nat,
                           generateLocal: bool, preserveInfo: bool)
      returns (ghost ranges: seq<Range>)
      modifies this
      ensures Runs(ranges) && Flatten(ranges) == Kept(ordered)
      ensures requests == BatchesOf(ranges, approved, starsPerMessage, ShowsLocal(ordered, generateLocal, preserveInfo))
      ensures Faithful(requests, ShowsLocal(ordered, generateLocal, preserveInfo))
      ensures Joined(requests) == Kept(ordered) && Grouped(requests)
      ensures Paid(requests) == Min(approved, |Kept(ordered)| * starsPerMessage)
      ensures requestsLeft == |requests| && callbacks == if requests == [] then 1 else 0
    {
      var collected := CollectForwardRanges(ordered);
      var client := generateLocal && |ordered| == 1 && !ordered[0].ephemeral && preserveInfo;
      ranges := collected;
      FailureMarksItsOwn(ordered, collected, approved, starsPerMessage, generateLocal, preserveInfo);
      BatchesAreTheItems(collected, approved, starsPerMessage, client);
      if collected == [] {
        requests, requestsLeft, callbacks := [], 0, 1;
        return;
      }
      callbacks := 0;
      SendRanges(collected, approved, starsPerMessage, client);
    }
  }
}
